/** The terminal client: bounded outbox, acknowledgements, session rekeying and recovery. */
module TuiClient {
  import opened Wrappers
  import opened TuiOutbox

  function Total(q: seq<Entry>): nat {
    if q == [] then 0 else Total(q[..|q| - 1]) + q[|q| - 1].size
  }

  lemma {:induction false} TotalPlus(a: seq<Entry>, b: seq<Entry>)
    ensures Total(a + b) == Total(a) + Total(b)
  {
    if b == [] {
      assert a + b == a;
    } else {
      TotalPlus(a, b[..|b| - 1]);
      assert (a + b)[..|a + b| - 1] == a + b[..|b| - 1];
    }
  }

  lemma {:induction false} TotalSnoc(q: seq<Entry>, e: Entry)
    ensures Total(q + [e]) == Total(q) + e.size
  {
    assert (q + [e])[..|q|] == q;
  }

  lemma {:induction false} TotalSplit(q: seq<Entry>, i: nat)
    requires i < |q|
    ensures Total(q) == Total(q[..i]) + q[i].size + Total(q[i + 1..])
  {
    assert q == q[..i] + ([q[i]] + q[i + 1..]);
    assert [q[i]][..0] == [];
    TotalPlus([q[i]], q[i + 1..]);
    TotalPlus(q[..i], [q[i]] + q[i + 1..]);
  }

  predicate SameId(q: seq<Entry>, i: nat, j: nat)
    requires i < |q| && j < |q|
  {
    q[i].cmd == q[j].cmd
  }

  ghost predicate DistinctIds(q: seq<Entry>) {
    forall i: nat, j: nat {:trigger SameId(q, i, j)} | i < j < |q| :: !SameId(q, i, j)
  }

  ghost predicate FramesFit(q: seq<Entry>) {
    forall e | e in q :: e.size <= TUI_MAX_FRAME_BYTES
  }

  lemma {:induction false} IdsDiffer(q: seq<Entry>, i: nat, j: nat)
    requires DistinctIds(q) && i < |q| && j < |q| && i != j
    ensures q[i].cmd != q[j].cmd
  {
    assert !SameId(q, if i < j then i else j, if i < j then j else i);
  }

  lemma {:induction false} AppendFacts(q: seq<Entry>, e: Entry)
    requires DistinctIds(q) && FramesFit(q) && e.size <= TUI_MAX_FRAME_BYTES && forall x | x in q :: x.cmd != e.cmd
    ensures DistinctIds(q + [e]) && FramesFit(q + [e]) && Total(q + [e]) == Total(q) + e.size
  {
    assert (q + [e])[..|q|] == q;
    forall i: nat, j: nat | i < j < |q + [e]| ensures !SameId(q + [e], i, j) {
      if j < |q| { IdsDiffer(q, i, j); } else { assert q[i] in q; }
    }
  }

  lemma {:induction false} RemoveFacts(q: seq<Entry>, i: nat)
    requires DistinctIds(q) && FramesFit(q) && i < |q|
    ensures var r := q[..i] + q[i + 1..];
            && DistinctIds(r) && FramesFit(r) && Total(r) == Total(q) - q[i].size
            && forall e :: e in r <==> e in q && e.cmd != q[i].cmd
  {
    var r := q[..i] + q[i + 1..];
    TotalSplit(q, i);
    TotalPlus(q[..i], q[i + 1..]);
    RemovedIds(q, i, r);
    RemovedMembers(q, i, r);
  }

  lemma {:induction false} RemovedIds(q: seq<Entry>, i: nat, r: seq<Entry>)
    requires DistinctIds(q) && i < |q| && r == q[..i] + q[i + 1..]
    ensures DistinctIds(r)
  {
    forall a: nat, b: nat | a < b < |r| ensures !SameId(r, a, b) {
      IdsDiffer(q, if a < i then a else a + 1, if b < i then b else b + 1);
    }
  }

  lemma {:induction false} RemovedMembers(q: seq<Entry>, i: nat, r: seq<Entry>)
    requires DistinctIds(q) && i < |q| && r == q[..i] + q[i + 1..]
    ensures forall e :: e in r <==> e in q && e.cmd != q[i].cmd
  {
    forall e | e in r ensures e in q && e.cmd != q[i].cmd {
      var k: nat :| k < |r| && r[k] == e;
      IdsDiffer(q, if k < i then k else k + 1, i);
    }
    forall e | e in q && e.cmd != q[i].cmd ensures e in r {
      var k: nat :| k < |q| && q[k] == e;
      assert r[if k < i then k else k - 1] == e;
    }
  }

  // ---------- rekeying ----------

  predicate Mentions(f: Frame, key: Sid) {
    f.sid == Some(key) || f.sessionId == Some(key)
  }

  function Renamed(f: Frame, key: Sid, session: Sid): Frame {
    f.(sid := if f.sid == Some(key) then Some(session) else f.sid,
       sessionId := if f.sessionId == Some(key) then Some(session) else f.sessionId)
  }

  /** One entry, given the bytes held by the whole outbox; an entry that would not fit stays. */
  function RekeyOne(e: Entry, bytes: int, key: Sid, session: Sid, sizeOf: Frame -> nat): Entry {
    if !Mentions(e.frame, key) then e
    else
      var updated := Renamed(e.frame, key, session);
      var size := sizeOf(updated);
      if size > TUI_MAX_FRAME_BYTES || bytes - e.size + size > TUI_OUTBOX_BYTES then e
      else Entry(e.cmd, updated, size)
  }

  /** The entries in order, each judged against what the earlier ones have grown to. */
  function Rekeyed(q: seq<Entry>, bytes: int, key: Sid, session: Sid, sizeOf: Frame -> nat): seq<Entry> {
    if q == [] then []
    else
      var front := q[..|q| - 1];
      var done := Rekeyed(front, bytes, key, session, sizeOf);
      done + [RekeyOne(q[|q| - 1], bytes - Total(front) + Total(done), key, session, sizeOf)]
  }

  ghost predicate SameCommand(e: Entry, r: Entry, key: Sid, session: Sid) {
    && r.cmd == e.cmd
    && (r == e || (Mentions(e.frame, key) && r.frame == Renamed(e.frame, key, session)))
  }

  ghost predicate SameCommands(q: seq<Entry>, r: seq<Entry>, key: Sid, session: Sid) {
    |r| == |q| && forall i | 0 <= i < |q| :: SameCommand(q[i], r[i], key, session)
  }

  lemma {:induction false} RekeyOneFits(e: Entry, bytes: int, key: Sid, session: Sid, sizeOf: Frame -> nat)
    requires e.size <= TUI_MAX_FRAME_BYTES && bytes <= TUI_OUTBOX_BYTES
    ensures var r := RekeyOne(e, bytes, key, session, sizeOf);
            SameCommand(e, r, key, session) && r.size <= TUI_MAX_FRAME_BYTES
                && bytes - e.size + r.size <= TUI_OUTBOX_BYTES
  {
  }

  lemma {:induction false} SameCommandsSnoc(q: seq<Entry>, e: Entry, r: seq<Entry>, e': Entry, key: Sid, session: Sid)
    requires SameCommands(q, r, key, session) && SameCommand(e, e', key, session)
    requires FramesFit(r) && e'.size <= TUI_MAX_FRAME_BYTES
    ensures SameCommands(q + [e], r + [e'], key, session) && FramesFit(r + [e'])
  {
  }

  /** Rekeying renames entries in place: same commands, same order, both caps still hold. */
  lemma {:induction false} RekeyKeepsOutbox(q: seq<Entry>, bytes: int, key: Sid, session: Sid, sizeOf: Frame -> nat)
    requires FramesFit(q) && bytes <= TUI_OUTBOX_BYTES
    ensures var r := Rekeyed(q, bytes, key, session, sizeOf);
            && SameCommands(q, r, key, session) && FramesFit(r)
            && bytes - Total(q) + Total(r) <= TUI_OUTBOX_BYTES
  {
    if q != [] {
      var front := q[..|q| - 1];
      var e := q[|q| - 1];
      RekeyKeepsOutbox(front, bytes, key, session, sizeOf);
      var done := Rekeyed(front, bytes, key, session, sizeOf);
      var held := bytes - Total(front) + Total(done);
      assert front + [e] == q && e in q;
      RekeyOneFits(e, held, key, session, sizeOf);
      SameCommandsSnoc(front, e, done, RekeyOne(e, held, key, session, sizeOf), key, session);
      TotalSnoc(done, RekeyOne(e, held, key, session, sizeOf));
    }
  }

  /** The outbox after the first `i` of the entries `q` have been looked at. */
  ghost predicate RekeyedUpTo(q: seq<Entry>, i: nat, bytes: int, key: Sid, session: Sid, sizeOf: Frame -> nat,
                              box: seq<Entry>, held: int)
    requires i <= |q|
  {
    var done := Rekeyed(q[..i], bytes, key, session, sizeOf);
    box == done + q[i..] && held == bytes - Total(q[..i]) + Total(done)
  }

  lemma {:induction false} RekeyStep(q: seq<Entry>, i: nat, bytes: int, key: Sid, session: Sid, sizeOf: Frame -> nat,
                  box: seq<Entry>, held: int)
    requires i < |q| && RekeyedUpTo(q, i, bytes, key, session, sizeOf, box, held)
    ensures var e := RekeyOne(q[i], held, key, session, sizeOf);
            |box| == |q| && RekeyedUpTo(q, i + 1, bytes, key, session, sizeOf, box[i := e], held + e.size - q[i].size)
  {
    var done := Rekeyed(q[..i], bytes, key, session, sizeOf);
    var e := RekeyOne(q[i], held, key, session, sizeOf);
    RekeyLength(q[..i], bytes, key, session, sizeOf);
    assert q[..i + 1][..i] == q[..i];
    assert (done + [e])[..i] == done;
    assert box[i := e] == (done + [e]) + q[i + 1..];
  }

  lemma {:induction false} RekeyDone(q: seq<Entry>, bytes: int, key: Sid, session: Sid, sizeOf: Frame -> nat,
      box: seq<Entry>, held: int)
    requires DistinctIds(q) && FramesFit(q) && bytes == Total(q) <= TUI_OUTBOX_BYTES
    requires RekeyedUpTo(q, |q|, bytes, key, session, sizeOf, box, held)
    ensures box == Rekeyed(q, bytes, key, session, sizeOf) && held == Total(box) && held <= TUI_OUTBOX_BYTES
    ensures |box| == |q| && DistinctIds(box) && FramesFit(box)
  {
    assert q[..|q|] == q && q[|q|..] == [];
    RekeyKeepsOutbox(q, bytes, key, session, sizeOf);
    RekeyKeepsIds(q, Rekeyed(q, bytes, key, session, sizeOf), key, session);
  }

  lemma {:induction false} RekeyLength(q: seq<Entry>, bytes: int, key: Sid, session: Sid, sizeOf: Frame -> nat)
    ensures |Rekeyed(q, bytes, key, session, sizeOf)| == |q|
  {
    if q != [] { RekeyLength(q[..|q| - 1], bytes, key, session, sizeOf); }
  }

  lemma {:induction false} RekeyKeepsIds(q: seq<Entry>, r: seq<Entry>, key: Sid, session: Sid)
    requires DistinctIds(q) && SameCommands(q, r, key, session)
    ensures DistinctIds(r)
  {
    forall i: nat, j: nat | i < j < |r| ensures !SameId(r, i, j) {
      IdsDiffer(q, i, j);
      assert SameCommand(q[i], r[i], key, session) && SameCommand(q[j], r[j], key, session);
    }
  }

  /** The most the outbox can hold while each mentioned entry is swapped for its new text. */
  function Peak(q: seq<Entry>, key: Sid, session: Sid, sizeOf: Frame -> nat): nat {
    if q == [] then 0
    else
      var e := q[|q| - 1];
      var size := if Mentions(e.frame, key) then sizeOf(Renamed(e.frame, key, session)) else e.size;
      Peak(q[..|q| - 1], key, session, sizeOf) + if size > e.size then size else e.size
  }

  ghost predicate NewFramesFit(q: seq<Entry>, key: Sid, session: Sid, sizeOf: Frame -> nat) {
    forall e | e in q && Mentions(e.frame, key) :: sizeOf(Renamed(e.frame, key, session)) <= TUI_MAX_FRAME_BYTES
  }

  /** With room for the new texts nothing keeps the old session name. */
  lemma {:induction false} RekeyLeavesNoOldName(q: seq<Entry>, bytes: int, key: Sid, session: Sid, sizeOf: Frame -> nat)
    requires key != session && NewFramesFit(q, key, session, sizeOf)
    requires bytes - Total(q) + Peak(q, key, session, sizeOf) <= TUI_OUTBOX_BYTES
    ensures var r := Rekeyed(q, bytes, key, session, sizeOf);
            && Total(r) <= Peak(q, key, session, sizeOf)
            && forall e | e in r :: !Mentions(e.frame, key)
  {
    if q != [] {
      var front := q[..|q| - 1];
      RekeyLeavesNoOldName(front, bytes, key, session, sizeOf);
      var done := Rekeyed(front, bytes, key, session, sizeOf);
      var last := RekeyOne(q[|q| - 1], bytes - Total(front) + Total(done), key, session, sizeOf);
      assert q[|q| - 1] in q;
      assert (done + [last])[..|done|] == done;
    }
  }

  // ---------- partial replays ----------

  lemma {:induction false} GroupPrefix(q: seq<Entry>, j: nat, t: Sid)
    requires j <= |q|
    ensures Commands(Group(q[..j], t)) <= Commands(Group(q, t))
    ensures Commands(Sessionless(q[..j])) <= Commands(Sessionless(q))
  {
    assert q == q[..j] + q[j..];
    GroupPlus(q[..j], q[j..], t);
    SessionlessPlus(q[..j], q[j..]);
  }

  lemma {:induction false} GroupsPrefix(q: seq<Entry>, targets: seq<Sid>, i: nat)
    requires i <= |targets|
    ensures GroupsFor(q, targets[..i]) <= GroupsFor(q, targets)
  {
    if i < |targets| {
      GroupsPrefix(q, targets[..|targets| - 1], i);
      assert targets[..|targets| - 1][..i] == targets[..i];
    } else {
      assert targets[..i] == targets;
    }
  }

  /** What has been sent when group `i` has been replayed up to queue position `j`. */
  function Midway(q: seq<Entry>, targets: seq<Sid>, i: nat, j: nat): seq<Sent>
    requires i < |targets| && j <= |q|
  {
    GroupsFor(q, targets[..i]) + ([Switch(targets[i])] + Commands(Group(q[..j], targets[i])))
  }

  lemma {:induction false} MidwayIsPrefix(q: seq<Entry>, attached: Option<Sid>, i: nat, j: nat)
    requires i < |Targets(q, attached)| && j <= |q|
    ensures Midway(q, Targets(q, attached), i, j) <= Replay(q, attached)
    ensures Midway(q, Targets(q, attached), i, |q|) == GroupsFor(q, Targets(q, attached)[..i + 1])
  {
    var targets := Targets(q, attached);
    MidwayInGroups(q, targets, i, j);
    GroupsPrefix(q, targets, i + 1);
    PrefixOf(Midway(q, targets, i, j), GroupsFor(q, targets[..i + 1]), GroupsFor(q, targets));
    PrefixOf(Midway(q, targets, i, j), GroupsFor(q, targets), Replay(q, attached));
  }

  lemma {:induction false} MidwayInGroups(q: seq<Entry>, targets: seq<Sid>, i: nat, j: nat)
    requires i < |targets| && j <= |q|
    ensures Midway(q, targets, i, j) <= GroupsFor(q, targets[..i + 1])
    ensures Midway(q, targets, i, |q|) == GroupsFor(q, targets[..i + 1])
  {
    GroupPrefix(q, j, targets[i]);
    assert q[..|q|] == q && targets[..i + 1][..i] == targets[..i];
  }

  lemma {:induction false} PrefixOf(a: seq<Sent>, b: seq<Sent>, c: seq<Sent>)
    requires a <= b <= c
    ensures a <= c
  {
  }

  lemma {:induction false} RestIsPrefix(q: seq<Entry>, attached: Option<Sid>, j: nat)
    requires j <= |q|
    ensures GroupsFor(q, Targets(q, attached)) + Commands(Sessionless(q[..j])) <= Replay(q, attached)
  {
    GroupPrefix(q, j, Sid(""));
  }

  lemma {:induction false} MidwayStep(q: seq<Entry>, targets: seq<Sid>, i: nat, j: nat)
    requires i < |targets| && j < |q|
    ensures Midway(q, targets, i, j + 1) ==
            Midway(q, targets, i, j) + if For(q[j], targets[i]) then [Command(q[j])] else []
  {
    assert q[..j + 1][..j] == q[..j];
  }

  lemma {:induction false} CutAfterHello(start: seq<Sent>, replay: seq<Sent>, room: nat)
    ensures (start + [Hello]) + replay == start + ([Hello] + replay)
    ensures room < |replay| ==> (start + [Hello]) + replay[..room] == start + ([Hello] + replay)[..room + 1]
  {
    if room < |replay| { assert [Hello] + replay[..room] == ([Hello] + replay)[..room + 1]; }
  }

  /** The ids of the commands among the first `j` that belong to one of the targets. */
  ghost predicate SentIds(sent: set<CmdId>, q: seq<Entry>, j: nat, targets: seq<Sid>, last: Option<Sid>)
    requires j <= |q|
  {
    forall k | 0 <= k < |q| ::
      q[k].cmd in sent <==> ForOneOf(q[k], targets) || (k < j && last.Some? && For(q[k], last.value))
  }

  lemma {:induction false} SentStep(sent: set<CmdId>, q: seq<Entry>, j: nat, targets: seq<Sid>, t: Sid)
    requires DistinctIds(q) && j < |q| && SentIds(sent, q, j, targets, Some(t))
    ensures SentIds(if For(q[j], t) then sent + {q[j].cmd} else sent, q, j + 1, targets, Some(t))
  {
    forall k: nat | k < |q| && k != j ensures q[k].cmd != q[j].cmd { IdsDiffer(q, k, j); }
  }

  lemma {:induction false} SentGroup(sent: set<CmdId>, q: seq<Entry>, targets: seq<Sid>, i: nat)
    requires i < |targets|
    ensures SentIds(sent, q, 0, targets[..i], None) ==> SentIds(sent, q, 0, targets[..i], Some(targets[i]))
    ensures SentIds(sent, q, |q|, targets[..i], Some(targets[i])) ==> SentIds(sent, q, 0, targets[..i + 1], None)
  {
    assert targets[..i + 1] == targets[..i] + [targets[i]];
  }

  lemma {:induction false} SentAreDurable(q: seq<Entry>, attached: Option<Sid>, sent: set<CmdId>, j: nat)
    requires j < |q| && SentIds(sent, q, 0, Targets(q, attached), None)
    ensures q[j].cmd in sent <==> Durable(q[j])
  {
    TargetsFacts(q, attached);
    assert q[j] in q;
  }

  lemma {:induction false} RestStep(groups: seq<Sent>, q: seq<Entry>, j: nat)
    requires j < |q|
    ensures groups + Commands(Sessionless(q[..j + 1])) ==
            groups + Commands(Sessionless(q[..j])) + if Durable(q[j]) then [] else [Command(q[j])]
  {
    assert q[..j + 1][..j] == q[..j];
    var rest := Sessionless(q[..j]);
    if Durable(q[j]) {
      assert Sessionless(q[..j + 1]) == rest;
    } else {
      CommandsSnoc(rest, q[j]);
    }
  }

  lemma {:induction false} CommandsSnoc(q: seq<Entry>, e: Entry)
    ensures Commands(q + [e]) == Commands(q) + [Command(e)]
  {
  }

  class Tui {
    var outbox: seq<Entry>
    var outboxBytes: int
    var attached: Option<Sid>
    /** Every frame the link has taken, and how many more it will take. */
    var wire: seq<Sent>
    var link: nat

    ghost predicate Valid()
      reads this
    {
      && DistinctIds(outbox) && FramesFit(outbox)
      && outboxBytes == Total(outbox) && outboxBytes <= TUI_OUTBOX_BYTES && |outbox| <= TUI_OUTBOX_CAP
    }

    constructor (link: nat)
      ensures Valid() && outbox == [] && wire == [] && attached == None
    {
      outbox, outboxBytes, attached, wire, this.link := [], 0, None, [], link;
    }

    method SendRaw(x: Sent) returns (ok: bool)
      modifies this`wire, this`link
      ensures ok == (old(link) > 0)
      ensures wire == (if ok then old(wire) + [x] else old(wire))
      ensures link == (if ok then old(link) - 1 else 0)
    {
      if link == 0 { return false; }
      wire, link := wire + [x], link - 1;
      return true;
    }

    method Find(cmd: CmdId) returns (at: Option<nat>)
      ensures at.Some? ==> at.value < |outbox| && outbox[at.value].cmd == cmd
      ensures at.None? ==> forall e | e in outbox :: e.cmd != cmd
    {
      for i := 0 to |outbox|
        invariant forall k | 0 <= k < i :: outbox[k].cmd != cmd
      {
        if outbox[i].cmd == cmd { return Some(i); }
      }
      return None;
    }

    /** The commands of the outbox keep their ids, and a new one must fit all three caps. */
    ghost predicate Accepts(cmd: CmdId, size: nat)
      reads this
    {
      || (exists e | e in outbox :: e.cmd == cmd)
      || (size <= TUI_MAX_FRAME_BYTES && |outbox| < TUI_OUTBOX_CAP && outboxBytes + size <= TUI_OUTBOX_BYTES)
    }

    /** The queued command of that id, queued now if it is new and fits. */
    method Enqueue(cmd: CmdId, frame: Frame, size: nat) returns (entry: Option<Entry>)
      requires Valid()
      modifies this`outbox, this`outboxBytes
      ensures Valid()
      ensures entry.Some? <==> old(Accepts(cmd, size))
      ensures entry.Some? ==> entry.value in outbox && entry.value.cmd == cmd
      ensures outbox == old(outbox) || (entry.Some? && outbox == old(outbox) + [Entry(cmd, frame, size)])
    {
      var at := Find(cmd);
      if at.Some? { return Some(outbox[at.value]); }
      if size > TUI_MAX_FRAME_BYTES { return None; }
      if |outbox| >= TUI_OUTBOX_CAP || outboxBytes + size > TUI_OUTBOX_BYTES { return None; }
      var e := Entry(cmd, frame, size);
      AppendFacts(outbox, e);
      outbox := outbox + [e];
      outboxBytes := outboxBytes + size;
      return Some(e);
    }

    /** A command once accepted is kept, whether or not the link took it; a repeat adds nothing. */
    method Send(cmd: CmdId, frame: Frame, size: nat) returns (accepted: bool)
      requires Valid()
      modifies this
      ensures Valid() && attached == old(attached)
      ensures accepted <==> old(Accepts(cmd, size))
      ensures accepted ==> exists e | e in outbox ::
                e.cmd == cmd && wire == old(wire) + if old(link) > 0 then [Command(e)] else []
      ensures outbox == old(outbox) || (accepted && outbox == old(outbox) + [Entry(cmd, frame, size)])
      ensures !accepted ==> wire == old(wire)
    {
      var entry := Enqueue(cmd, frame, size);
      if entry.None? { return false; }
      var _ := SendRaw(Command(entry.value));
      return true;
    }

    /** Only an acknowledgement addressed to this client removes its command. */
    method Acknowledge(forThisClient: bool, cmd: CmdId)
      requires Valid()
      modifies this`outbox, this`outboxBytes
      ensures Valid()
      ensures !forThisClient ==> outbox == old(outbox)
      ensures forThisClient ==> forall e :: e in outbox <==> e in old(outbox) && e.cmd != cmd
      ensures forThisClient ==>
                || outbox == old(outbox)
                || (exists i | 0 <= i < |old(outbox)| ::
                    old(outbox)[i].cmd == cmd && outbox == old(outbox)[..i] + old(outbox)[i + 1..])
    {
      if !forThisClient { return; }
      var at := Find(cmd);
      if at.Some? {
        var i := at.value;
        RemoveFacts(outbox, i);
        outboxBytes := outboxBytes - outbox[i].size;
        outbox := outbox[..i] + outbox[i + 1..];
      }
    }

    method RekeyOutbox(key: Sid, session: Sid, sizeOf: Frame -> nat)
      requires Valid()
      modifies this`outbox, this`outboxBytes
      ensures Valid() && outbox == Rekeyed(old(outbox), old(outboxBytes), key, session, sizeOf)
    {
      ghost var bytes := outboxBytes;
      var items := outbox;
      assert items[..0] == [];
      for i := 0 to |items|
        invariant RekeyedUpTo(items, i, bytes, key, session, sizeOf, outbox, outboxBytes) && |outbox| == |items|
      {
        RekeyStep(items, i, bytes, key, session, sizeOf, outbox, outboxBytes);
        var e := RekeyOne(items[i], outboxBytes, key, session, sizeOf);
        outbox := outbox[i := e];
        outboxBytes := outboxBytes + e.size - items[i].size;
      }
      RekeyDone(items, bytes, key, session, sizeOf, outbox, outboxBytes);
    }

    method RecoveryTargets() returns (targets: seq<Sid>)
      ensures targets == Targets(outbox, attached)
    {
      var all: seq<Sid> := [];
      for i := 0 to |outbox|
        invariant all == DurableSids(outbox[..i])
      {
        assert outbox[..i + 1][..i] == outbox[..i];
        if Durable(outbox[i]) { all := all + [CommandSid(outbox[i].frame).value]; }
      }
      assert outbox[..|outbox|] == outbox;
      if HasFocus(attached) { all := Without(all, attached.value) + [attached.value]; }
      targets := [];
      for i := 0 to |all|
        invariant targets == Dedup(all[..i])
      {
        assert all[..i + 1][..i] == all[..i];
        if all[i] !in targets { targets := targets + [all[i]]; }
      }
      assert all[..|all|] == all;
    }

    ghost predicate At(start: seq<Sent>, room: nat, out: seq<Sent>)
      reads this
    {
      wire == start + out && link + |out| == room
    }

    ghost predicate CutShort(start: seq<Sent>, room: nat, full: seq<Sent>)
      reads this
    {
      room < |full| && wire == start + full[..room]
    }

    /** Sends the next frame of `full`, or leaves it cut short there. */
    method SendNext(x: Sent, ghost start: seq<Sent>, ghost room: nat, ghost out: seq<Sent>, ghost full: seq<Sent>)
      returns (ok: bool)
      requires At(start, room, out) && out + [x] <= full
      modifies this`wire, this`link
      ensures if ok then At(start, room, out + [x]) else CutShort(start, room, full)
    {
      ok := SendRaw(x);
      assert ok ==> wire == start + (out + [x]);
      assert !ok ==> full[..room] == out;
    }

    /** Sends a queued command if it is for the target. */
    method SendIfFor(targets: seq<Sid>, i: nat, j: nat, sent0: set<CmdId>, ghost start: seq<Sent>, ghost room: nat)
      returns (ok: bool, sent: set<CmdId>)
      requires Valid() && targets == Targets(outbox, attached) && i < |targets| && j < |outbox|
      requires SentIds(sent0, outbox, j, targets[..i], Some(targets[i]))
      requires At(start, room, Midway(outbox, targets, i, j))
      modifies this`wire, this`link
      ensures if ok then At(start, room, Midway(outbox, targets, i, j + 1))
                         && SentIds(sent, outbox, j + 1, targets[..i], Some(targets[i]))
              else CutShort(start, room, Replay(outbox, attached))
    {
      var e, t := outbox[j], targets[i];
      MidwayStep(outbox, targets, i, j);
      MidwayIsPrefix(outbox, attached, i, j + 1);
      SentStep(sent0, outbox, j, targets[..i], t);
      ok, sent := true, sent0;
      if For(e, t) {
        ok := SendNext(Command(e), start, room, Midway(outbox, targets, i, j), Replay(outbox, attached));
        if ok { sent := sent + {e.cmd}; }
      }
    }

    method SendGroup(targets: seq<Sid>, i: nat, sent0: set<CmdId>, ghost start: seq<Sent>, ghost room: nat)
      returns (ok: bool, sent: set<CmdId>)
      requires Valid() && targets == Targets(outbox, attached) && i < |targets|
      requires SentIds(sent0, outbox, 0, targets[..i], None)
      requires At(start, room, GroupsFor(outbox, targets[..i]))
      modifies this`wire, this`link
      ensures if ok then At(start, room, GroupsFor(outbox, targets[..i + 1]))
              && SentIds(sent, outbox, 0, targets[..i + 1], None)
              else CutShort(start, room, Replay(outbox, attached))
    {
      var q, t := outbox, targets[i];
      ghost var full := Replay(q, attached);
      sent := sent0;
      MidwayIsPrefix(q, attached, i, 0);
      SentGroup(sent, q, targets, i);
      assert GroupsFor(q, targets[..i]) + [Switch(t)] == Midway(q, targets, i, 0);
      ok := SendNext(Switch(t), start, room, GroupsFor(q, targets[..i]), full);
      if !ok { return; }
      for j := 0 to |q|
        invariant At(start, room, Midway(q, targets, i, j))
        invariant SentIds(sent, q, j, targets[..i], Some(t))
      {
        ok, sent := SendIfFor(targets, i, j, sent, start, room);
        if !ok { return; }
      }
      MidwayIsPrefix(q, attached, i, |q|);
      SentGroup(sent, q, targets, i);
    }

    method SendGroups(targets: seq<Sid>, ghost start: seq<Sent>, ghost room: nat) returns (ok: bool, sent: set<CmdId>)
      requires Valid() && targets == Targets(outbox, attached) && At(start, room, [])
      modifies this`wire, this`link
      ensures if ok then At(start, room, GroupsFor(outbox, targets)) && SentIds(sent, outbox, 0, targets, None)
              else CutShort(start, room, Replay(outbox, attached))
    {
      sent := {};
      ok := true;
      for i := 0 to |targets|
        invariant At(start, room, GroupsFor(outbox, targets[..i]))
        invariant SentIds(sent, outbox, 0, targets[..i], None)
      {
        ok, sent := SendGroup(targets, i, sent, start, room);
        if !ok { return; }
      }
      assert targets[..|targets|] == targets;
      ok := true;
    }

    /** Everything the groups did not send, in queue order. */
    method SendRest(targets: seq<Sid>, sent: set<CmdId>, ghost start: seq<Sent>, ghost room: nat) returns (ok: bool)
      requires Valid() && targets == Targets(outbox, attached)
      requires SentIds(sent, outbox, 0, targets, None) && At(start, room, GroupsFor(outbox, targets))
      modifies this`wire, this`link
      ensures if ok then At(start, room, Replay(outbox, attached)) else CutShort(start, room, Replay(outbox, attached))
    {
      var q := outbox;
      ghost var full, groups := Replay(q, attached), GroupsFor(q, targets);
      assert q[..0] == [] && groups + Commands([]) == groups;
      for j := 0 to |q|
        invariant At(start, room, groups + Commands(Sessionless(q[..j])))
      {
        SentAreDurable(q, attached, sent, j);
        RestStep(groups, q, j);
        RestIsPrefix(q, attached, j + 1);
        if q[j].cmd !in sent {
          ok := SendNext(Command(q[j]), start, room, groups + Commands(Sessionless(q[..j])), full);
          if !ok { return; }
        }
      }
      assert q[..|q|] == q;
      return true;
    }

    /** Sends the whole replay, or exactly as much of it as the link takes. */
    method RecoveryPreamble()
      requires Valid()
      modifies this`wire, this`link
      ensures var full := [Hello] + Replay(outbox, attached);
              wire == old(wire) + if old(link) < |full| then full[..old(link)] else full
    {
      ghost var start, room := wire, link;
      ghost var replay := Replay(outbox, attached);
      var ok := SendRaw(Hello);
      if !ok { return; }
      CutAfterHello(start, replay, room - 1);
      ok := SendReplay(start + [Hello], room - 1);
    }

    method SendReplay(ghost start: seq<Sent>, ghost room: nat) returns (ok: bool)
      requires Valid() && At(start, room, [])
      modifies this`wire, this`link
      ensures if ok then At(start, room, Replay(outbox, attached)) else CutShort(start, room, Replay(outbox, attached))
    {
      var targets := RecoveryTargets();
      var sent;
      ok, sent := SendGroups(targets, start, room);
      if ok { ok := SendRest(targets, sent, start, room); }
    }
  }
}
