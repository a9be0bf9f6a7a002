/**
 Output history and live subscriptions of one broker PTY session.

 `output` records every output byte so far; a subscription keeps what it was
 given: the snapshot at attach time and the output events put on its queue.
 */
module BrokerSession {
  import opened Wrappers
  import opened BrokerTable

  const CONTROL_OUTPUT_TAIL_CHARS := 16 * 1024

  function Concat(chunks: seq<Bytes>): Bytes {
    if chunks == [] then [] else Concat(chunks[..|chunks| - 1]) + chunks[|chunks| - 1]
  }

  /** The last `limit` elements, or all of them. */
  function Tail<T>(s: seq<T>, limit: nat): seq<T> {
    if |s| <= limit then s else s[|s| - limit..]
  }

  lemma {:induction false} TailOfTail<T>(a: seq<T>, b: seq<T>, limit: nat)
    ensures Tail(Tail(a, limit) + b, limit) == Tail(a + b, limit)
  {
  }

  lemma {:induction false} TailAfterDrop<T>(first: seq<T>, rest: seq<T>, limit: nat)
    requires |first + rest| > limit
    ensures var excess := |first + rest| - limit;
            if |first| <= excess then Tail(rest, limit) == Tail(first + rest, limit)
            else Tail(first[excess..] + rest, limit) == Tail(first + rest, limit)
  {
  }

  lemma {:induction false} ConcatPush(chunks: seq<Bytes>, c: Bytes)
    ensures Concat(chunks + [c]) == Concat(chunks) + c
  {
    assert (chunks + [c])[..|chunks|] == chunks;
  }

  lemma {:induction false} ConcatPop(chunks: seq<Bytes>)
    requires chunks != []
    ensures Concat(chunks) == chunks[0] + Concat(chunks[1..])
  {
    if |chunks| == 1 {
      assert chunks[..0] == [] && chunks[1..] == [];
    } else {
      var front := chunks[..|chunks| - 1];
      ConcatPop(front);
      assert front[1..] == chunks[1..][..|chunks[1..]| - 1];
    }
  }

  // ---------- the session ----------

  /** A snapshot, then the output since: complete while subscribed, a prefix after. */
  ghost predicate SubscriptionOk(s: Subscription, output: Bytes, limit: nat, isCurrent: bool) {
    && s.start <= |output|
    && s.snapshot == Tail(output[..s.start], limit)
    && s.delivered <= output[s.start..]
    && (isCurrent ==> s.delivered == output[s.start..] && !s.overflowed && s.queued <= SUBSCRIBER_QUEUE_FRAMES)
  }

  ghost predicate AllSubscriptionsOk(t: Table, output: Bytes, limit: nat) {
    && t.current <= t.subs.Keys
    && forall s | s in t.subs :: s.number < t.nextSub && SubscriptionOk(t.subs[s], output, limit, s in t.current)
  }

  /**
   What an attached client has: a snapshot of the newest bytes at attach time,
   followed by an unbroken prefix of the output since, all of it while attached.
   */
  lemma {:induction false} AttachIsGapFree(t: Table, output: Bytes, limit: nat, s: SubId)
    requires AllSubscriptionsOk(t, output, limit) && s in t.subs
    ensures var sub := t.subs[s];
            exists k :: sub.start <= k <= |output|
              && sub.snapshot + sub.delivered == Tail(output[..sub.start], limit) + output[sub.start..k]
              && (s in t.current ==> k == |output|)
  {
    var sub := t.subs[s];
    var k := sub.start + |sub.delivered|;
    assert SubscriptionOk(sub, output, limit, s in t.current);
    assert sub.delivered == output[sub.start..][..|sub.delivered|] == output[sub.start..k];
  }

  lemma {:induction false} OutputGrows(s: Subscription, output: Bytes, data: Bytes, limit: nat, isCurrent: bool)
    requires SubscriptionOk(s, output, limit, isCurrent)
    ensures SubscriptionOk(s, output + data, limit, false)
    ensures isCurrent ==> SubscriptionOk(Offered(s, data), output + data, limit, s.queued < SUBSCRIBER_QUEUE_FRAMES)
  {
    assert (output + data)[..s.start] == output[..s.start];
    assert (output + data)[s.start..] == output[s.start..] + data;
  }

  lemma {:induction false} OfferKeepsSubs(t: Table, output: Bytes, data: Bytes, limit: nat)
    requires AllSubscriptionsOk(t, output, limit)
    ensures AllSubscriptionsOk(Sent(t, data), output + data, limit)
  {
    var t' := Sent(t, data);
    forall s | s in t'.subs
      ensures s.number < t'.nextSub && SubscriptionOk(t'.subs[s], output + data, limit, s in t'.current)
    {
      OutputGrows(t.subs[s], output, data, limit, s in t.current);
    }
  }

  lemma {:induction false} LeaveKeepsSubs(t: Table, s: SubId, output: Bytes, limit: nat)
    ensures AllSubscriptionsOk(t, output, limit) ==> AllSubscriptionsOk(Left(t, s), output, limit)
  {
  }

  /** The table after offering the event to everyone outside `todo`. */
  ghost predicate Halfway(t0: Table, todo: set<SubId>, data: Bytes, t: Table) {
    && todo <= t0.current <= t0.subs.Keys && t.nextSub == t0.nextSub
    && t.subs == AllOffered(t0.subs, t0.current - todo, data)
    && t.current == todo + Remaining(t0.subs, t0.current - todo)
    && t.owner == OwnerAfterOffers(t0.subs, t0.current - todo, t0.owner)
  }

  /** One more subscriber is offered the event; with its queue full it leaves. */
  function OfferedOne(t: Table, s: SubId, data: Bytes): Table
    requires s in t.subs
  {
    var t' := t.(subs := t.subs[s := Offered(t.subs[s], data)]);
    if t.subs[s].queued < SUBSCRIBER_QUEUE_FRAMES then t' else Left(t', s)
  }

  lemma {:induction false} OfferStep(t0: Table, todo: set<SubId>, data: Bytes, t: Table, s: SubId)
    requires Halfway(t0, todo, data, t) && s in todo
    ensures s in t.subs && t.subs[s] == t0.subs[s] && s in t.current
    ensures Halfway(t0, todo - {s}, data, OfferedOne(t, s, data))
  {
    var rest := t0.current - (todo - {s});
    assert rest == (t0.current - todo) + {s};
    OwnerStep(t0.subs, t0.current - todo, s, t0.owner);
  }

  lemma {:induction false} OwnerStep(subs: map<SubId, Subscription>, done: set<SubId>, s: SubId, owner: Option<Owner>)
    requires s in subs
    ensures var before := OwnerAfterOffers(subs, done, owner);
            OwnerAfterOffers(subs, done + {s}, owner) ==
            if subs[s].queued < SUBSCRIBER_QUEUE_FRAMES then before else OwnerAfterLeave(subs, s, before)
  {
    forall a | a in done ensures LeavesWithOwner(subs, done + {s}, a, owner) == LeavesWithOwner(subs, done, a, owner) {}
    assert LeavesWithOwner(subs, done + {s}, s, owner) ==
           (subs[s].queued >= SUBSCRIBER_QUEUE_FRAMES && owner == Some(subs[s].owner));
  }

  lemma {:induction false} JoinKeepsSubs(t: Table, owner: Owner, wantKeyboard: bool, output: Bytes, limit: nat)
    requires AllSubscriptionsOk(t, output, limit)
    ensures AllSubscriptionsOk(Joined(t, owner, wantKeyboard, Tail(output, limit), |output|), output, limit)
    ensures SubId(t.nextSub) !in t.subs
  {
    assert output[..|output|] == output && output[|output|..] == [];
  }

  class PTYSession {
    const historyLimit: nat
    var history: seq<Bytes>
    var historyBytes: nat
    var running: bool
    var subs: map<SubId, Subscription>
    var current: set<SubId>
    var keyboardOwner: Option<Owner>
    var nextSub: nat
    var output: Bytes

    ghost predicate HistoryOk()
      reads this
    {
      Concat(history) == Tail(output, historyLimit) && historyBytes == |Concat(history)|
    }

    ghost predicate SubsOk()
      reads this
    {
      AllSubscriptionsOk(Subscribers(), output, historyLimit)
    }

    ghost function Subscribers(): Table
      reads this
    {
      Table(subs, current, keyboardOwner, nextSub)
    }

    ghost predicate Valid()
      reads this
    {
      HistoryOk() && SubsOk()
    }

    constructor (historyLimit: nat)
      ensures Valid() && this.historyLimit == historyLimit && output == [] && Subscribers() == NOBODY && running
    {
      this.historyLimit := historyLimit;
      history, historyBytes, running := [], 0, true;
      subs, current, keyboardOwner, nextSub := map[], {}, None, 0;
      output := [];
    }

    /** Drops whole or part chunks from the front until the limit holds again. */
    method AppendHistory(data: Bytes)
      requires historyBytes == |Concat(history)| && historyBytes <= historyLimit
      modifies this`history, this`historyBytes
      ensures Concat(history) == Tail(old(Concat(history)) + data, historyLimit)
      ensures historyBytes == |Concat(history)|
    {
      if data == [] || historyLimit == 0 { return; }
      ghost var all := Concat(history) + data;
      var kept := data;
      if |kept| > historyLimit { kept := kept[|kept| - historyLimit..]; }
      ConcatPush(history, kept);
      history := history + [kept];
      historyBytes := historyBytes + |kept|;
      assert Tail(Concat(history), historyLimit) == Tail(all, historyLimit);
      while historyBytes > historyLimit && history != []
        invariant historyBytes == |Concat(history)|
        invariant Tail(Concat(history), historyLimit) == Tail(all, historyLimit)
        decreases historyBytes - historyLimit, |history|
      {
        ConcatPop(history);
        var excess := historyBytes - historyLimit;
        var first := history[0];
        TailAfterDrop(first, Concat(history[1..]), historyLimit);
        if |first| <= excess {
          history := history[1..];
          historyBytes := historyBytes - |first|;
        } else {
          ghost var rest := history[1..];
          history := history[0 := first[excess..]];
          ConcatPop(history);
          assert history[1..] == rest;
          historyBytes := historyBytes - excess;
        }
      }
    }

    /** Puts the event on every queue; a full queue ends its subscription. */
    method Broadcast(data: Bytes)
      requires current <= subs.Keys
      modifies this`subs, this`current, this`keyboardOwner
      ensures Subscribers() == Sent(old(Subscribers()), data)
    {
      ghost var t0 := Subscribers();
      var todo := current;
      assert t0.current - todo == {};
      while todo != {}
        invariant Halfway(t0, todo, data, Subscribers())
      {
        var s :| s in todo;
        OfferStep(t0, todo, data, Subscribers(), s);
        Offer(s, data);
        todo := todo - {s};
      }
      assert t0.current - {} == t0.current;
    }

    method Offer(s: SubId, data: Bytes)
      requires s in subs && s in current
      modifies this`subs, this`current, this`keyboardOwner
      ensures Subscribers() == OfferedOne(old(Subscribers()), s, data)
    {
      if subs[s].queued < SUBSCRIBER_QUEUE_FRAMES {
        subs := subs[s := subs[s].(delivered := subs[s].delivered + data, queued := subs[s].queued + 1)];
      } else {
        subs := subs[s := subs[s].(overflowed := true)];
        Unsubscribe(s);
      }
    }

    method Unsubscribe(s: SubId)
      requires s in subs
      modifies this`current, this`keyboardOwner
      ensures Subscribers() == Left(old(Subscribers()), s)
      ensures old(Valid()) ==> Valid()
    {
      if s !in current { return; }
      LeaveKeepsSubs(Subscribers(), s, output, historyLimit);
      current := current - {s};
      if keyboardOwner == Some(subs[s].owner) { keyboardOwner := None; }
    }

    method OnOutput(data: Bytes)
      requires Valid()
      modifies this
      ensures Valid() && output == old(output) + data
      ensures Subscribers() == Sent(old(Subscribers()), data)
    {
      TailOfTail(output, data, historyLimit);
      OfferKeepsSubs(Subscribers(), output, data, historyLimit);
      AppendHistory(data);
      Broadcast(data);
      output := output + data;
    }

    /** The snapshot and the live queue meet without a gap or an overlap. */
    method Subscribe(owner: Owner, wantKeyboard: bool) returns (s: Option<SubId>, snapshot: seq<Bytes>)
      requires Valid()
      modifies this
      ensures Valid() && Concat(snapshot) == Tail(output, historyLimit) && output == old(output)
      ensures s == if running then Some(SubId(old(nextSub))) else None
      ensures Subscribers() == if running
                               then Joined(old(Subscribers()), owner, wantKeyboard, Concat(snapshot), |output|)
                               else old(Subscribers())
    {
      snapshot := history;
      if !running { return None, snapshot; }
      JoinKeepsSubs(Subscribers(), owner, wantKeyboard, output, historyLimit);
      var keyboard := wantKeyboard && keyboardOwner.None?;
      s := Some(SubId(nextSub));
      subs := subs[SubId(nextSub) := Subscription(owner, keyboard, Concat(history), |output|, [], 0, false)];
      current := current + {SubId(nextSub)};
      if keyboard { keyboardOwner := Some(owner); }
      nextSub := nextSub + 1;
    }

    /** The client takes one event off its queue. */
    method TakeEvent(s: SubId)
      requires Valid() && s in subs && subs[s].queued > 0
      modifies this`subs
      ensures Valid() && Subscribers() == Taken(old(Subscribers()), s)
    {
      subs := subs[s := subs[s].(queued := subs[s].queued - 1)];
    }
  }

  // ---------- control output window ----------

  /** A bounded window over the plain control text, addressed by absolute cursors. */
  class ControlOutput {
    var window: string
    var start: nat
    var total: nat
    ghost var text: string

    ghost predicate Valid()
      reads this
    {
      && total == |text| && start + |window| == total
      && window == Tail(text, CONTROL_OUTPUT_TAIL_CHARS)
    }

    constructor ()
      ensures Valid() && text == ""
    {
      window, start, total, text := "", 0, 0, "";
    }

    method Append(plain: string) returns (cursor: nat)
      requires Valid()
      modifies this
      ensures Valid() && text == old(text) + plain && cursor == |old(text)|
    {
      cursor := total;
      TailOfTail(text, plain, CONTROL_OUTPUT_TAIL_CHARS);
      window := window + plain;
      total := total + |plain|;
      text := text + plain;
      if |window| > CONTROL_OUTPUT_TAIL_CHARS {
        var excess := |window| - CONTROL_OUTPUT_TAIL_CHARS;
        window := window[excess..];
        start := start + excess;
      }
    }

    /** Everything since the cursor, or all that is retained when the cursor is older. */
    method Since(cursor: nat) returns (r: string)
      requires Valid()
      ensures cursor <= |text| ==> r == Tail(text[cursor..], CONTROL_OUTPUT_TAIL_CHARS)
      ensures cursor > |text| ==> r == ""
    {
      var offset := (if cursor > start then cursor else start) - start;
      return if offset <= |window| then window[offset..] else "";
    }
  }
}
