/**
 Rows of the Claude fork journal: what a readable journal file holds, how a row
 may advance, and the ordered dictionary that keeps the rows.
 */
module ForkRows {
  import opened Wrappers

  const MAX_ENTRIES := 4096
  const MAX_ERROR_CHARS := 512

  /** A request or session id that already passed the id pattern. */
  datatype Id = Id(text: string)

  /** The temporary title: a fixed prefix followed by the id of the root request. */
  datatype Marker = ForkMarker(requestId: Id)

  datatype Identity = Identity(parent: Id, cutoff: Id, cwd: string)

  datatype Status = Intent | Alias | Submitted | Uncertain | Complete | Rejected

  datatype Entry = Entry(identity: Identity, marker: Marker, canonical: Option<Id>, status: Status,
                         child: Option<Id>, error: Option<string>)

  type Rows = map<Id, Entry>

  function RootId(k: Id, e: Entry): Id {
    if e.canonical.Some? then e.canonical.value else k
  }

  predicate Unresolved(e: Entry) {
    e.status in {Intent, Alias, Submitted, Uncertain}
  }

  predicate OpenRoot(e: Entry) {
    e.canonical.None? && Unresolved(e)
  }

  // ---------- what reading the file back checks ----------

  predicate ValidEntry(k: Id, e: Entry) {
    && e.marker == ForkMarker(RootId(k, e))
    && (e.status == Alias ==> e.canonical.Some?)
    && (e.canonical.Some? ==> e.status in {Alias, Complete, Rejected})
    && (e.status == Complete <==> e.child.Some?)
    && (e.status == Rejected <==> e.error.Some?)
    && (e.error.Some? ==> 1 <= |e.error.value| <= MAX_ERROR_CHARS)
  }

  predicate CompatibleAlias(alias: Entry, root: Entry) {
    && root.canonical.None?
    && alias.identity == root.identity && alias.marker == root.marker
    && alias.child == root.child && alias.error == root.error
    && match alias.status
       case Alias => root.status in {Intent, Submitted, Uncertain}
       case Complete => root.status == Complete
       case Rejected => root.status == Rejected
       case _ => false
  }

  predicate ValidAlias(rows: Rows, e: Entry) {
    e.canonical.Some? ==> e.canonical.value in rows && CompatibleAlias(e, rows[e.canonical.value])
  }

  predicate ValidRow(rows: Rows, k: Id)
    requires k in rows
  {
    ValidEntry(k, rows[k]) && ValidAlias(rows, rows[k])
  }

  predicate Loadable(rows: Rows) {
    && |rows| <= MAX_ENTRIES
    && forall k {:trigger ValidRow(rows, k)} | k in rows :: ValidRow(rows, k)
  }

  predicate OneOpenRoot(rows: Rows, a: Id, b: Id)
    requires a in rows && b in rows
  {
    OpenRoot(rows[a]) && OpenRoot(rows[b]) && rows[a].identity == rows[b].identity ==> a == b
  }

  /** The alias forest: a readable file with at most one open root for one source message. */
  ghost predicate Forest(rows: Rows) {
    && Loadable(rows)
    && forall a, b {:trigger OneOpenRoot(rows, a, b)} | a in rows && b in rows :: OneOpenRoot(rows, a, b)
  }

  /** In a forest the rows of one marker are one root and its aliases. */
  lemma {:induction false} GroupsAreTrees(rows: Rows, k: Id)
    requires Forest(rows) && k in rows
    ensures RootId(k, rows[k]) in rows && rows[RootId(k, rows[k])].canonical.None?
    ensures rows[RootId(k, rows[k])].identity == rows[k].identity
    ensures forall j | j in rows :: rows[j].marker == rows[k].marker <==> RootId(j, rows[j]) == RootId(k, rows[k])
    ensures Unresolved(rows[k]) <==> Unresolved(rows[RootId(k, rows[k])])
  {
    assert ValidRow(rows, k);
    if rows[k].canonical.Some? { assert ValidRow(rows, rows[k].canonical.value); }
    forall j | j in rows
      ensures rows[j].marker == rows[k].marker <==> RootId(j, rows[j]) == RootId(k, rows[k])
    {
      assert ValidRow(rows, j);
    }
  }

  // ---------- how rows advance ----------

  function Rank(s: Status): nat {
    match s
    case Intent => 0
    case Alias => 0
    case Submitted => 1
    case Uncertain => 2
    case Complete => 3
    case Rejected => 3
  }

  ghost predicate EntryAdvances(e: Entry, e': Entry) {
    && e.identity == e'.identity && e.marker == e'.marker && e.canonical == e'.canonical
    && Rank(e.status) <= Rank(e'.status)
    && (e.status == Complete ==> e'.status == Complete && e'.child == e.child)
    && (e.status == Rejected ==> e'.status == Rejected)
  }

  /** No row goes back, and only resolved rows may disappear. */
  ghost predicate Advances(rows: Rows, rows': Rows) {
    && (forall k | k in rows && k in rows' :: EntryAdvances(rows[k], rows'[k]))
    && (forall k | k in rows && Unresolved(rows[k]) :: k in rows')
  }

  // ---------- the ordered dictionary ----------

  datatype Entries = Entries(order: seq<Id>, rows: Rows)

  /** The order lists every key exactly once. */
  ghost predicate Ordered(e: Entries) {
    multiset(e.order) == multiset(e.rows.Keys)
  }

  lemma {:induction false} OrderedMembers(e: Entries)
    requires Ordered(e)
    ensures forall k :: k in e.order <==> k in e.rows
    ensures forall i | 0 <= i < |e.order| :: e.order[i] in e.rows
  {
    assert forall k :: k in e.order <==> k in multiset(e.order);
    assert forall i | 0 <= i < |e.order| :: e.order[i] in e.order;
  }

  /** A key stands at one place only. */
  lemma {:induction false} OrderedOnce(e: Entries, i: nat)
    requires Ordered(e) && i < |e.order|
    ensures e.order[i] !in e.order[..i] && e.order[i] !in e.order[i + 1..]
  {
    var k := e.order[i];
    assert e.order == e.order[..i] + [k] + e.order[i + 1..];
    OrderedMembers(e);
    assert multiset(e.order)[k] == 1;
  }

  function Keep(order: seq<Id>, rows: Rows, marker: Marker, inGroup: bool): seq<Id>
    requires forall k | k in order :: k in rows
  {
    if order == [] then []
    else
      var rest := Keep(order[..|order| - 1], rows, marker, inGroup);
      var k := order[|order| - 1];
      if (rows[k].marker == marker) == inGroup then rest + [k] else rest
  }

  function Without(order: seq<Id>, k: Id): seq<Id> {
    if order == [] then []
    else
      var rest := Without(order[..|order| - 1], k);
      var last := order[|order| - 1];
      if last == k then rest else rest + [last]
  }

  lemma {:induction false} WithoutMembers(order: seq<Id>, k: Id)
    ensures multiset(Without(order, k)) == multiset(order)[k := 0]
  {
    if order != [] {
      WithoutMembers(order[..|order| - 1], k);
      assert order == order[..|order| - 1] + [order[|order| - 1]];
    }
  }

  lemma {:induction false} WithoutAbsent(order: seq<Id>, k: Id)
    requires k !in order
    ensures Without(order, k) == order
  {
    if order != [] { WithoutAbsent(order[..|order| - 1], k); }
  }

  lemma {:induction false} WithoutMiddle(a: seq<Id>, k: Id, b: seq<Id>)
    requires k !in a && k !in b
    ensures Without(a + [k] + b, k) == a + b
  {
    var s := a + [k] + b;
    if b == [] {
      assert s[..|s| - 1] == a && s[|s| - 1] == k && a + b == a;
      WithoutAbsent(a, k);
    } else {
      var front := b[..|b| - 1];
      assert s[..|s| - 1] == a + [k] + front && s[|s| - 1] == b[|b| - 1];
      WithoutMiddle(a, k, front);
      assert a + front + [b[|b| - 1]] == a + b;
    }
  }

  function MoveToEnd(e: Entries, k: Id): Entries {
    e.(order := Without(e.order, k) + [k])
  }

  function Put(e: Entries, k: Id, row: Entry): Entries {
    Entries(if k in e.rows then e.order else e.order + [k], e.rows[k := row])
  }

  lemma {:induction false} OrderedMoveToEnd(e: Entries, k: Id)
    requires Ordered(e) && k in e.rows
    ensures Ordered(MoveToEnd(e, k))
  {
    WithoutMembers(e.order, k);
  }

  lemma {:induction false} OrderedPut(e: Entries, k: Id, row: Entry)
    requires Ordered(e)
    ensures Ordered(Put(e, k, row))
  {
    assert e.rows[k := row].Keys == e.rows.Keys + {k};
  }
}
