/**
 The terminal client's outbox of unacknowledged commands and its replay after a
 reconnect.

 The outbox is a sequence in insertion order with distinct command ids. The
 replay is specified as one sequence of frames, `Replay`; the method sends that
 sequence, or a prefix of it when the link fails.
 */
module TuiOutbox {
  import opened Wrappers

  const TUI_OUTBOX_CAP := 256
  const TUI_OUTBOX_BYTES := 32 * 1024 * 1024
  const TUI_MAX_FRAME_BYTES := 16 * 1024 * 1024

  datatype Sid = Sid(name: string)
  datatype CmdId = CmdId(name: string)
  datatype Frame = Frame(sid: Option<Sid>, sessionId: Option<Sid>, isSwitch: bool, body: nat)
  datatype Entry = Entry(cmd: CmdId, frame: Frame, size: nat)
  datatype Sent = Hello | Switch(target: Sid) | Command(entry: Entry) | Unreliable(plain: Frame)

  /** The session a queued frame belongs to. */
  function CommandSid(f: Frame): Option<Sid> {
    if f.sid.None? && f.isSwitch then f.sessionId else f.sid
  }

  predicate DurableSid(s: Sid) {
    s.name != "" && !("btw-" <= s.name)
  }

  predicate Durable(e: Entry) {
    CommandSid(e.frame).Some? && DurableSid(CommandSid(e.frame).value)
  }

  predicate For(e: Entry, target: Sid) {
    CommandSid(e.frame) == Some(target)
  }

  // ---------- the order of the replay ----------

  function DurableSids(q: seq<Entry>): seq<Sid> {
    if q == [] then []
    else
      var e := q[|q| - 1];
      DurableSids(q[..|q| - 1]) + if Durable(e) then [CommandSid(e.frame).value] else []
  }

  function Without(s: seq<Sid>, x: Sid): seq<Sid> {
    if s == [] then []
    else Without(s[..|s| - 1], x) + if s[|s| - 1] == x then [] else [s[|s| - 1]]
  }

  /** First occurrences, in order. */
  function Dedup(s: seq<Sid>): seq<Sid> {
    if s == [] then []
    else
      var front := Dedup(s[..|s| - 1]);
      if s[|s| - 1] in front then front else front + [s[|s| - 1]]
  }

  predicate HasFocus(attached: Option<Sid>) {
    attached.Some? && DurableSid(attached.value)
  }

  function Targets(q: seq<Entry>, attached: Option<Sid>): seq<Sid> {
    Dedup(if HasFocus(attached) then Without(DurableSids(q), attached.value) + [attached.value] else DurableSids(q))
  }

  function Group(q: seq<Entry>, target: Sid): seq<Entry> {
    if q == [] then []
    else Group(q[..|q| - 1], target) + if For(q[|q| - 1], target) then [q[|q| - 1]] else []
  }

  function Sessionless(q: seq<Entry>): seq<Entry> {
    if q == [] then []
    else Sessionless(q[..|q| - 1]) + if Durable(q[|q| - 1]) then [] else [q[|q| - 1]]
  }

  function Commands(q: seq<Entry>): seq<Sent> {
    seq(|q|, i requires 0 <= i < |q| => Command(q[i]))
  }

  function GroupsFor(q: seq<Entry>, targets: seq<Sid>): seq<Sent> {
    if targets == [] then []
    else
      var t := targets[|targets| - 1];
      GroupsFor(q, targets[..|targets| - 1]) + ([Switch(t)] + Commands(Group(q, t)))
  }

  function Replay(q: seq<Entry>, attached: Option<Sid>): seq<Sent> {
    GroupsFor(q, Targets(q, attached)) + Commands(Sessionless(q))
  }

  // ---------- what the replay contains ----------

  ghost predicate Distinct<T>(s: seq<T>) {
    forall i, j | 0 <= i < j < |s| :: s[i] != s[j]
  }

  /** The commands among the frames sent, in the order sent. */
  function Resent(out: seq<Sent>): seq<Entry> {
    if out == [] then []
    else Resent(out[..|out| - 1]) + match out[|out| - 1] case Command(e) => [e] case _ => []
  }

  lemma {:induction false} ResentPlus(a: seq<Sent>, b: seq<Sent>)
    ensures Resent(a + b) == Resent(a) + Resent(b)
  {
    if b == [] {
      assert a + b == a;
    } else {
      ResentPlus(a, b[..|b| - 1]);
      assert (a + b)[..|a + b| - 1] == a + b[..|b| - 1];
    }
  }

  lemma {:induction false} ResentCommands(q: seq<Entry>)
    ensures Resent(Commands(q)) == q
  {
    if q != [] {
      ResentCommands(q[..|q| - 1]);
      assert Commands(q)[..|q| - 1] == Commands(q[..|q| - 1]);
    }
  }

  lemma {:induction false} DedupFacts(s: seq<Sid>)
    ensures Distinct(Dedup(s)) && forall x :: x in Dedup(s) <==> x in s
  {
    if s != [] {
      DedupFacts(s[..|s| - 1]);
      assert s == s[..|s| - 1] + [s[|s| - 1]];
    }
  }

  lemma {:induction false} DedupFreshLast(s: seq<Sid>, x: Sid)
    requires x !in s
    ensures Dedup(s + [x]) == Dedup(s) + [x]
  {
    DedupFacts(s);
    assert (s + [x])[..|s|] == s;
  }

  lemma {:induction false} WithoutFacts(s: seq<Sid>, x: Sid)
    ensures forall y :: y in Without(s, x) <==> y in s && y != x
  {
    if s != [] {
      WithoutFacts(s[..|s| - 1], x);
      assert s == s[..|s| - 1] + [s[|s| - 1]];
    }
  }

  lemma {:induction false} DurableSidsFacts(q: seq<Entry>)
    ensures forall t :: t in DurableSids(q) <==> DurableSid(t) && exists e :: e in q && For(e, t)
  {
    if q != [] {
      var front, last := q[..|q| - 1], q[|q| - 1];
      DurableSidsFacts(front);
      assert q == front + [last];
      forall t ensures t in DurableSids(q) <==> DurableSid(t) && exists e :: e in q && For(e, t) {
        if t in DurableSids(q) {
          if t in DurableSids(front) {
            var e :| e in front && For(e, t);
            assert e in q;
          } else {
            assert last in q && For(last, t);
          }
        }
      }
    }
  }

  /** Every durable session with a queued command, and the focused one last; nothing twice. */
  lemma {:induction false} TargetsFacts(q: seq<Entry>, attached: Option<Sid>)
    ensures Distinct(Targets(q, attached))
    ensures forall t | t in Targets(q, attached) :: DurableSid(t)
    ensures forall e | e in q && Durable(e) :: CommandSid(e.frame).value in Targets(q, attached)
    ensures HasFocus(attached) ==>
              Targets(q, attached) != [] && Targets(q, attached)[|Targets(q, attached)| - 1] == attached.value
  {
    var all := DurableSids(q);
    DurableSidsFacts(q);
    forall e | e in q && Durable(e) ensures CommandSid(e.frame).value in all {
      assert For(e, CommandSid(e.frame).value);
    }
    if HasFocus(attached) {
      WithoutFacts(all, attached.value);
      DedupFreshLast(Without(all, attached.value), attached.value);
      DedupFacts(Without(all, attached.value) + [attached.value]);
    } else {
      DedupFacts(all);
    }
  }

  lemma {:induction false} GroupFacts(q: seq<Entry>, t: Sid)
    ensures forall e :: multiset(Group(q, t))[e] == if For(e, t) then multiset(q)[e] else 0
  {
    if q != [] {
      GroupFacts(q[..|q| - 1], t);
      assert q == q[..|q| - 1] + [q[|q| - 1]];
    }
  }

  lemma {:induction false} SessionlessFacts(q: seq<Entry>)
    ensures forall e :: multiset(Sessionless(q))[e] == if Durable(e) then 0 else multiset(q)[e]
  {
    if q != [] {
      SessionlessFacts(q[..|q| - 1]);
      assert q == q[..|q| - 1] + [q[|q| - 1]];
    }
  }

  predicate ForOneOf(e: Entry, targets: seq<Sid>) {
    CommandSid(e.frame).Some? && CommandSid(e.frame).value in targets
  }

  lemma {:induction false} ResentGroup(before: seq<Sent>, t: Sid, group: seq<Entry>)
    ensures Resent(before + ([Switch(t)] + Commands(group))) == Resent(before) + group
  {
    ResentPlus(before, [Switch(t)]);
    assert [Switch(t)][..0] == [];
    ResentPlus(before + [Switch(t)], Commands(group));
    ResentCommands(group);
    assert before + ([Switch(t)] + Commands(group)) == (before + [Switch(t)]) + Commands(group);
  }

  lemma {:induction false} GroupsFacts(q: seq<Entry>, targets: seq<Sid>, e: Entry)
    requires Distinct(targets)
    ensures multiset(Resent(GroupsFor(q, targets)))[e] == if ForOneOf(e, targets) then multiset(q)[e] else 0
  {
    if targets != [] {
      var front, t := targets[..|targets| - 1], targets[|targets| - 1];
      var before, group := Resent(GroupsFor(q, front)), Group(q, t);
      GroupsFacts(q, front, e);
      GroupFacts(q, t);
      ResentGroup(GroupsFor(q, front), t, group);
      assert multiset(before + group) == multiset(before) + multiset(group);
      assert targets == front + [t];
      assert For(e, t) ==> !ForOneOf(e, front);
    }
  }

  /** A full replay sends every queued command exactly once, unchanged and under its own id. */
  lemma {:induction false} ReplaySendsEachOnce(q: seq<Entry>, attached: Option<Sid>)
    ensures multiset(Resent(Replay(q, attached))) == multiset(q)
  {
    var targets := Targets(q, attached);
    TargetsFacts(q, attached);
    SessionlessFacts(q);
    ResentPlus(GroupsFor(q, targets), Commands(Sessionless(q)));
    ResentCommands(Sessionless(q));
    forall e ensures multiset(Resent(Replay(q, attached)))[e] == multiset(q)[e] {
      GroupsFacts(q, targets, e);
      if e in q && Durable(e) { assert ForOneOf(e, targets); }
    }
  }

  // ---------- order ----------

  lemma {:induction false} GroupPlus(a: seq<Entry>, b: seq<Entry>, t: Sid)
    ensures Group(a + b, t) == Group(a, t) + Group(b, t)
  {
    if b == [] {
      assert a + b == a;
    } else {
      GroupPlus(a, b[..|b| - 1], t);
      assert (a + b)[..|a + b| - 1] == a + b[..|b| - 1];
    }
  }

  lemma {:induction false} SessionlessPlus(a: seq<Entry>, b: seq<Entry>)
    ensures Sessionless(a + b) == Sessionless(a) + Sessionless(b)
  {
    if b == [] {
      assert a + b == a;
    } else {
      SessionlessPlus(a, b[..|b| - 1]);
      assert (a + b)[..|a + b| - 1] == a + b[..|b| - 1];
    }
  }

  lemma {:induction false} GroupOfOne(e: Entry, t: Sid)
    ensures Group([e], t) == if For(e, t) then [e] else []
    ensures Sessionless([e]) == if Durable(e) then [] else [e]
  {
    assert [e][..0] == [];
  }

  lemma {:induction false} GroupOfGroup(q: seq<Entry>, t: Sid, u: Sid)
    ensures Group(Group(q, t), u) == if t == u then Group(q, t) else []
    ensures DurableSid(t) ==> Sessionless(Group(q, t)) == []
  {
    if q != [] {
      var front, last := q[..|q| - 1], q[|q| - 1];
      GroupOfGroup(front, t, u);
      GroupOfOne(last, u);
      if For(last, t) {
        GroupPlus(Group(front, t), [last], u);
        SessionlessPlus(Group(front, t), [last]);
      } else {
        assert Group(q, t) == Group(front, t);
      }
    }
  }

  lemma {:induction false} GroupOfSessionless(q: seq<Entry>, u: Sid)
    ensures DurableSid(u) ==> Group(Sessionless(q), u) == []
    ensures Sessionless(Sessionless(q)) == Sessionless(q)
  {
    if q != [] {
      var front, last := q[..|q| - 1], q[|q| - 1];
      GroupOfSessionless(front, u);
      GroupOfOne(last, u);
      if Durable(last) {
        assert Sessionless(q) == Sessionless(front);
      } else {
        GroupPlus(Sessionless(front), [last], u);
        SessionlessPlus(Sessionless(front), [last]);
      }
    }
  }

  lemma {:induction false} GroupsOrder(q: seq<Entry>, targets: seq<Sid>, u: Sid)
    requires Distinct(targets) && forall t | t in targets :: DurableSid(t)
    ensures Group(Resent(GroupsFor(q, targets)), u) == if u in targets then Group(q, u) else []
    ensures Sessionless(Resent(GroupsFor(q, targets))) == []
  {
    if targets != [] {
      var front, t := targets[..|targets| - 1], targets[|targets| - 1];
      assert targets == front + [t];
      GroupsOrder(q, front, u);
      var group := Group(q, t);
      ResentGroup(GroupsFor(q, front), t, group);
      GroupOfGroup(q, t, u);
      GroupPlus(Resent(GroupsFor(q, front)), group, u);
      SessionlessPlus(Resent(GroupsFor(q, front)), group);
    }
  }

  lemma {:induction false} NoTargetNoGroup(q: seq<Entry>, u: Sid)
    requires forall e | e in q :: !For(e, u)
    ensures Group(q, u) == []
  {
    if q != [] { NoTargetNoGroup(q[..|q| - 1], u); }
  }

  /** Within each durable session, and among the other commands, the queue order is kept. */
  lemma {:induction false} ReplayKeepsOrder(q: seq<Entry>, attached: Option<Sid>, u: Sid)
    ensures DurableSid(u) ==> Group(Resent(Replay(q, attached)), u) == Group(q, u)
    ensures Sessionless(Resent(Replay(q, attached))) == Sessionless(q)
  {
    var targets := Targets(q, attached);
    TargetsFacts(q, attached);
    GroupsOrder(q, targets, u);
    ResentPlus(GroupsFor(q, targets), Commands(Sessionless(q)));
    ResentCommands(Sessionless(q));
    GroupPlus(Resent(GroupsFor(q, targets)), Sessionless(q), u);
    SessionlessPlus(Resent(GroupsFor(q, targets)), Sessionless(q));
    GroupOfSessionless(q, u);
    if DurableSid(u) && u !in targets { NoTargetNoGroup(q, u); }
  }

  // ---------- which session is resident ----------

  /** The session a frame makes resident: the recovery's own switches and queued switch commands. */
  function FocusOf(x: Sent): Option<Sid> {
    match x
    case Switch(t) => Some(t)
    case Command(e) => if e.frame.isSwitch then e.frame.sessionId else None
    case _ => None
  }

  /** The session made resident last, reading from the left. */
  function Focus(out: seq<Sent>): Option<Sid> {
    if out == [] then None
    else if FocusOf(out[|out| - 1]).Some? then FocusOf(out[|out| - 1])
    else Focus(out[..|out| - 1])
  }

  /** A queued switch goes to the session it is queued for: it carries no other session of its own. */
  predicate SwitchesHome(e: Entry) {
    FocusOf(Command(e)).Some? ==> FocusOf(Command(e)) == CommandSid(e.frame)
  }

  ghost predicate AllHome(q: seq<Entry>) {
    forall e | e in q :: SwitchesHome(e)
  }

  lemma {:induction false} FocusPlus(a: seq<Sent>, b: seq<Sent>)
    ensures Focus(a + b) == if Focus(b).Some? then Focus(b) else Focus(a)
  {
    if b == [] {
      assert a + b == a;
    } else {
      FocusPlus(a, b[..|b| - 1]);
      assert (a + b)[..|a + b| - 1] == a + b[..|b| - 1];
    }
  }

  lemma {:induction false} CommandsFocus(q: seq<Entry>)
    ensures Focus(Commands(q)) == None <==> forall e | e in q :: FocusOf(Command(e)) == None
    ensures Focus(Commands(q)).Some? ==> exists e :: e in q && FocusOf(Command(e)) == Focus(Commands(q))
  {
    if q != [] {
      var front, last := q[..|q| - 1], q[|q| - 1];
      CommandsFocus(front);
      assert Commands(q)[..|q| - 1] == Commands(front) && Commands(q)[|q| - 1] == Command(last);
      assert forall e :: e in q <==> e in front || e == last;
    }
  }

  ghost predicate AllFor(group: seq<Entry>, t: Sid) {
    forall e | e in group :: For(e, t) && SwitchesHome(e)
  }

  lemma {:induction false} FocusInGroup(before: seq<Sent>, t: Sid, group: seq<Entry>)
    requires AllFor(group, t)
    ensures Focus(before + ([Switch(t)] + Commands(group))) == Some(t)
  {
    CommandsFocus(group);
    FocusPlus([Switch(t)], Commands(group));
    FocusPlus(before, [Switch(t)] + Commands(group));
  }

  lemma {:induction false} FocusAtCommand(before: seq<Sent>, t: Sid, group: seq<Entry>, i: nat)
    requires |before| <= i < |before| + 1 + |group| && AllFor(group, t)
    requires (before + ([Switch(t)] + Commands(group)))[i].Command?
    ensures var all := before + ([Switch(t)] + Commands(group));
            Focus(all[..i]) == Some(t) && all[i].entry in group
  {
    var all := before + ([Switch(t)] + Commands(group));
    assert all[|before|] == Switch(t);
    var k := i - |before| - 1;
    assert all[i] == Command(group[k]);
    assert all[..i] == before + ([Switch(t)] + Commands(group[..k]));
    FocusInGroup(before, t, group[..k]);
  }

  lemma {:induction false} GroupMembers(q: seq<Entry>, t: Sid)
    ensures forall e | e in Group(q, t) :: For(e, t) && e in q
  {
    if q != [] { GroupMembers(q[..|q| - 1], t); }
  }

  lemma {:induction false} SessionlessMembers(q: seq<Entry>)
    ensures forall e :: e in Sessionless(q) <==> e in q && !Durable(e)
  {
    if q != [] {
      SessionlessMembers(q[..|q| - 1]);
      assert forall e :: e in q <==> e in q[..|q| - 1] || e == q[|q| - 1];
    }
  }

  lemma {:induction false} GroupsFocus(q: seq<Entry>, targets: seq<Sid>, i: nat)
    requires AllHome(q) && i < |GroupsFor(q, targets)| && GroupsFor(q, targets)[i].Command?
    ensures CommandSid(GroupsFor(q, targets)[i].entry.frame) == Focus(GroupsFor(q, targets)[..i])
  {
    if targets != [] {
      var front, t := targets[..|targets| - 1], targets[|targets| - 1];
      var before, group := GroupsFor(q, front), Group(q, t);
      var all := GroupsFor(q, targets);
      if i < |before| {
        GroupsFocus(q, front, i);
        assert all[..i] == before[..i];
      } else {
        GroupMembers(q, t);
        FocusAtCommand(before, t, group, i);
      }
    }
  }

  lemma {:induction false} GroupsEndFocus(q: seq<Entry>, targets: seq<Sid>)
    requires AllHome(q)
    ensures Focus(GroupsFor(q, targets)) == if targets == [] then None else Some(targets[|targets| - 1])
  {
    if targets != [] {
      GroupMembers(q, targets[|targets| - 1]);
      FocusInGroup(GroupsFor(q, targets[..|targets| - 1]), targets[|targets| - 1], Group(q, targets[|targets| - 1]));
    }
  }

  lemma {:induction false} SwitchesFirst(q: seq<Entry>, targets: seq<Sid>, rest: seq<Entry>, i: nat)
    requires AllHome(q) && forall e | e in rest :: !Durable(e)
    requires var all := GroupsFor(q, targets) + Commands(rest);
             i < |all| && all[i].Command?
    ensures var all := GroupsFor(q, targets) + Commands(rest);
            Durable(all[i].entry) ==> CommandSid(all[i].entry.frame) == Focus(all[..i])
  {
    var groups := GroupsFor(q, targets);
    if i < |groups| {
      GroupsFocus(q, targets, i);
      assert (groups + Commands(rest))[..i] == groups[..i];
    } else {
      assert (groups + Commands(rest))[i] == Command(rest[i - |groups|]);
    }
  }

  /** A command of a durable session is only sent while that session is the resident one. */
  lemma {:induction false} ReplaySwitchesFirst(q: seq<Entry>, attached: Option<Sid>, i: nat)
    requires AllHome(q) && i < |Replay(q, attached)| && Replay(q, attached)[i].Command?
    ensures var e := Replay(q, attached)[i].entry;
            Durable(e) ==> CommandSid(e.frame) == Focus(Replay(q, attached)[..i])
  {
    SessionlessMembers(q);
    SwitchesFirst(q, Targets(q, attached), Sessionless(q), i);
  }

  /** The replay ends with the focused session resident exactly when no switch to an ephemeral session is queued. */
  lemma {:induction false} ReplayRestoresFocus(q: seq<Entry>, attached: Option<Sid>)
    requires HasFocus(attached) && AllHome(q)
    ensures Focus(Replay(q, attached)) == attached <==> forall e | e in q && FocusOf(Command(e)).Some? :: Durable(e)
  {
    TargetsFacts(q, attached);
    GroupsEndFocus(q, Targets(q, attached));
    SessionlessMembers(q);
    CommandsFocus(Sessionless(q));
    FocusPlus(GroupsFor(q, Targets(q, attached)), Commands(Sessionless(q)));
  }

  function Switches(out: seq<Sent>): seq<Sid> {
    if out == [] then []
    else Switches(out[..|out| - 1]) + match out[|out| - 1] case Switch(t) => [t] case _ => []
  }

  lemma {:induction false} SwitchesPlusCommands(out: seq<Sent>, q: seq<Entry>)
    ensures Switches(out + Commands(q)) == Switches(out)
  {
    if q == [] {
      assert out + Commands(q) == out;
    } else {
      SwitchesPlusCommands(out, q[..|q| - 1]);
      assert (out + Commands(q))[..|out| + |q| - 1] == out + Commands(q[..|q| - 1]);
    }
  }

  lemma {:induction false} SwitchesPlusGroup(before: seq<Sent>, t: Sid, group: seq<Entry>)
    ensures Switches(before + ([Switch(t)] + Commands(group))) == Switches(before) + [t]
  {
    assert before + ([Switch(t)] + Commands(group)) == (before + [Switch(t)]) + Commands(group);
    SwitchesPlusCommands(before + [Switch(t)], group);
    assert (before + [Switch(t)])[..|before|] == before;
  }

  lemma {:induction false} GroupsSwitches(q: seq<Entry>, targets: seq<Sid>)
    ensures Switches(GroupsFor(q, targets)) == targets
  {
    if targets != [] {
      var front, t := targets[..|targets| - 1], targets[|targets| - 1];
      GroupsSwitches(q, front);
      var before := GroupsFor(q, front);
      SwitchesPlusGroup(before, t, Group(q, t));
    }
  }

  /** Each session is made resident once: a group is never split by a second switch. */
  lemma {:induction false} ReplaySwitchesOnce(q: seq<Entry>, attached: Option<Sid>)
    ensures Distinct(Switches(Replay(q, attached)))
    ensures forall t :: t in Switches(Replay(q, attached)) <==>
              (HasFocus(attached) && attached.value == t) || (DurableSid(t) && exists e :: e in q && For(e, t))
  {
    TargetsFacts(q, attached);
    GroupsSwitches(q, Targets(q, attached));
    SwitchesPlusCommands(GroupsFor(q, Targets(q, attached)), Sessionless(q));
    DurableSidsFacts(q);
    if HasFocus(attached) {
      WithoutFacts(DurableSids(q), attached.value);
      DedupFacts(Without(DurableSids(q), attached.value) + [attached.value]);
    } else {
      DedupFacts(DurableSids(q));
    }
  }
}
