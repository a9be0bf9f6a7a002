/**
 One relay client connection: a queue bounded in frames and bytes, and the sender
 task that drains it.

 `addressed`, `accepted` and `sent` record the frames routed to the connection,
 those its queue took, and those that reached its socket.
 */
module RelayConn {

  /**
   A wrapper frame is direct when it names a client; it may carry the route id of
   the connection it answers. The relay adds notices of its own.
   */
  datatype Frame = FromWrapper(payload: nat, direct: bool, route: int) | Notice(code: nat)

  const NO_ROUTE := -1

  datatype Item = Item(frame: Frame, size: nat)

  datatype Limits = Limits(cap: nat, byteCap: nat, maxClients: nat)

  datatype Sender = Idle | Sending(frame: Frame) | Ended

  datatype Conn = Conn(queue: seq<Item>, bytes: nat, closed: bool, sender: Sender,
                       addressed: seq<Frame>, accepted: seq<Frame>, sent: seq<Frame>)

  const NEW_CONN := Conn([], 0, false, Idle, [], [], [])

  predicate ValidLimits(lim: Limits) {
    lim.cap >= 1 && lim.byteCap >= 1024 && lim.maxClients >= 1
  }

  function Sizes(queue: seq<Item>): nat {
    if queue == [] then 0 else Sizes(queue[..|queue| - 1]) + queue[|queue| - 1].size
  }

  function Frames(queue: seq<Item>): (r: seq<Frame>)
    ensures |r| == |queue|
  {
    seq(|queue|, i requires 0 <= i < |queue| => queue[i].frame)
  }

  /** The wrapper's own frames among `frames`. */
  function OnlyWrapper(frames: seq<Frame>): seq<Frame> {
    if frames == [] then []
    else
      var rest := OnlyWrapper(frames[..|frames| - 1]);
      var last := frames[|frames| - 1];
      if last.FromWrapper? then rest + [last] else rest
  }

  function InFlight(c: Conn): seq<Frame> {
    if c.sender.Sending? then [c.sender.frame] else []
  }

  ghost predicate ConnOk(c: Conn, lim: Limits) {
    && |c.queue| <= lim.cap
    && c.bytes == Sizes(c.queue) <= lim.byteCap
    && (if c.sender.Ended? then c.sent <= c.accepted else c.sent + InFlight(c) + Frames(c.queue) == c.accepted)
    && OnlyWrapper(c.accepted) <= c.addressed
  }

  /** Nothing routed to the connection is missing from its queue's history. */
  ghost predicate UpToDate(c: Conn) {
    OnlyWrapper(c.accepted) == c.addressed
  }

  // ---------- steps ----------

  predicate Refuses(c: Conn, size: nat, lim: Limits) {
    c.closed || |c.queue| >= lim.cap || c.bytes + size > lim.byteCap
  }

  function Send(c: Conn, item: Item, lim: Limits): Conn {
    if Refuses(c, item.size, lim) then c
    else c.(queue := c.queue + [item], bytes := c.bytes + item.size, accepted := c.accepted + [item.frame])
  }

  /** A wrapper frame is routed to the connection, which takes or refuses it. */
  function Route(c: Conn, item: Item, lim: Limits): Conn {
    Send(c, item, lim).(addressed := c.addressed + [item.frame])
  }

  function Take(c: Conn): Conn {
    if c.sender.Idle? && c.queue != []
    then c.(queue := c.queue[1..], bytes := if c.bytes >= c.queue[0].size then c.bytes - c.queue[0].size else 0,
            sender := Sending(c.queue[0].frame))
    else c
  }

  function Finish(c: Conn, ok: bool): Conn {
    if !c.sender.Sending? then c
    else if ok then c.(sender := Idle, sent := c.sent + [c.sender.frame])
    else c.(sender := Ended, closed := true)
  }

  function Stop(c: Conn): Conn {
    c.(closed := true)
  }

  function Cancel(c: Conn): Conn {
    if c.closed then c.(sender := Ended) else c
  }

  /** What can happen to a connection besides a wrapper frame. */
  datatype ConnAction = StopConn | CancelSender | SenderTake | SenderDone(ok: bool) | RelayNotice(item: Item)

  function ConnNext(c: Conn, a: ConnAction, lim: Limits): Conn {
    match a
    case StopConn => Stop(c)
    case CancelSender => Cancel(c)
    case SenderTake => Take(c)
    case SenderDone(ok) => Finish(c, ok)
    case RelayNotice(item) => if item.frame.Notice? then Send(c, item, lim) else c
  }

  // ---------- what the steps keep ----------

  lemma {:induction false} SizesPush(queue: seq<Item>, item: Item)
    ensures Sizes(queue + [item]) == Sizes(queue) + item.size
    ensures Frames(queue + [item]) == Frames(queue) + [item.frame]
  {
    assert (queue + [item])[..|queue|] == queue;
  }

  lemma {:induction false} SizesPop(queue: seq<Item>)
    requires queue != []
    ensures Sizes(queue) == queue[0].size + Sizes(queue[1..])
    ensures Frames(queue) == [queue[0].frame] + Frames(queue[1..])
  {
    if |queue| == 1 {
      assert queue[..0] == [] && queue[1..] == [];
    } else {
      var front := queue[..|queue| - 1];
      SizesPop(front);
      assert front[1..] == queue[1..][..|queue[1..]| - 1];
    }
  }

  lemma {:induction false} OnlyWrapperPush(frames: seq<Frame>, f: Frame)
    ensures OnlyWrapper(frames + [f]) == OnlyWrapper(frames) + (if f.FromWrapper? then [f] else [])
  {
    assert (frames + [f])[..|frames|] == frames;
  }

  lemma {:induction false} OnlyWrapperPrefix(a: seq<Frame>, b: seq<Frame>)
    requires a <= b
    ensures OnlyWrapper(a) <= OnlyWrapper(b)
  {
    if |a| < |b| {
      OnlyWrapperPrefix(a, b[..|b| - 1]);
      OnlyWrapperPush(b[..|b| - 1], b[|b| - 1]);
      assert b == b[..|b| - 1] + [b[|b| - 1]];
    } else {
      assert a == b;
    }
  }

  lemma {:induction false} FramesPush(c: Conn, item: Item)
    ensures c.sent + InFlight(c) + Frames(c.queue + [item]) == (c.sent + InFlight(c) + Frames(c.queue)) + [item.frame]
  {
    assert Frames(c.queue + [item]) == Frames(c.queue) + [item.frame];
  }

  lemma {:induction false} NoticeKeeps(c: Conn, item: Item, lim: Limits)
    requires ConnOk(c, lim) && item.frame.Notice?
    ensures ConnOk(Send(c, item, lim), lim) && (UpToDate(c) ==> UpToDate(Send(c, item, lim)))
  {
    if !Refuses(c, item.size, lim) {
      SizesPush(c.queue, item);
      OnlyWrapperPush(c.accepted, item.frame);
      FramesPush(c, item);
    }
  }

  lemma {:induction false} RouteKeeps(c: Conn, item: Item, lim: Limits)
    requires ConnOk(c, lim) && item.frame.FromWrapper? && UpToDate(c)
    ensures ConnOk(Route(c, item, lim), lim) && (UpToDate(Route(c, item, lim)) <==> !Refuses(c, item.size, lim))
  {
    if Refuses(c, item.size, lim) {
      assert |Route(c, item, lim).addressed| == |OnlyWrapper(c.accepted)| + 1;
    } else {
      SizesPush(c.queue, item);
      OnlyWrapperPush(c.accepted, item.frame);
      FramesPush(c, item);
    }
  }

  lemma {:induction false} SendKeeps(c: Conn, item: Item, lim: Limits)
    requires ConnOk(c, lim)
    ensures item.frame.Notice? ==> ConnOk(Send(c, item, lim), lim) && (UpToDate(c) ==> UpToDate(Send(c, item, lim)))
    ensures item.frame.FromWrapper? && UpToDate(c) ==>
              ConnOk(Route(c, item, lim), lim) && (UpToDate(Route(c, item, lim)) <==> !Refuses(c, item.size, lim))
  {
    if item.frame.Notice? {
      NoticeKeeps(c, item, lim);
    } else if UpToDate(c) {
      RouteKeeps(c, item, lim);
    }
  }

  lemma {:induction false} TakeKeeps(c: Conn, lim: Limits)
    requires ConnOk(c, lim)
    ensures ConnOk(Take(c), lim)
  {
    if c.queue != [] { SizesPop(c.queue); }
  }

  lemma {:induction false} SenderKeeps(c: Conn, ok: bool, lim: Limits)
    requires ConnOk(c, lim)
    ensures ConnOk(Finish(c, ok), lim) && ConnOk(Stop(c), lim) && ConnOk(Cancel(c), lim)
  {
    if !c.sender.Ended? { assert c.accepted == c.sent + (InFlight(c) + Frames(c.queue)); }
  }

  lemma {:induction false} ConnNextKeeps(c: Conn, a: ConnAction, lim: Limits)
    requires ConnOk(c, lim)
    ensures var c' := ConnNext(c, a, lim);
            ConnOk(c', lim) && c'.addressed == c.addressed && (UpToDate(c) ==> UpToDate(c'))
  {
    match a
    case SenderTake => TakeKeeps(c, lim);
    case RelayNotice(item) => SendKeeps(c, item, lim);
    case SenderDone(ok) => SenderKeeps(c, ok, lim);
    case _ => SenderKeeps(c, true, lim);
  }

  /** The wrapper frames that reached the socket are a prefix of those routed to the connection. */
  lemma {:induction false} SentIsGapFree(c: Conn, lim: Limits)
    requires ConnOk(c, lim)
    ensures OnlyWrapper(c.sent) <= c.addressed
  {
    assert c.sent <= c.accepted;
    OnlyWrapperPrefix(c.sent, c.accepted);
  }

  /** The connection as an object with its own fields. */
  class ClientConn {
    const lim: Limits
    var queue: seq<Item>
    var queuedBytes: nat
    var closed: bool
    var sender: Sender
    var addressed: seq<Frame>
    var accepted: seq<Frame>
    var sent: seq<Frame>

    ghost function Value(): Conn
      reads this
    {
      Conn(queue, queuedBytes, closed, sender, addressed, accepted, sent)
    }

    ghost predicate Valid()
      reads this
    {
      ConnOk(Value(), lim)
    }

    /** Limits below their floors are raised to them. */
    constructor (cap: int, byteCap: int, maxClients: nat)
      ensures Valid() && Value() == NEW_CONN
      ensures lim.cap == (if cap < 1 then 1 else cap) && lim.byteCap == (if byteCap < 1024 then 1024 else byteCap)
      ensures lim.maxClients == maxClients
    {
      lim := Limits(if cap < 1 then 1 else cap, if byteCap < 1024 then 1024 else byteCap, maxClients);
      queue, queuedBytes, closed, sender := [], 0, false, Idle;
      addressed, accepted, sent := [], [], [];
    }

    /** Queues one complete frame or refuses it. */
    method Enqueue(item: Item) returns (ok: bool)
      requires item.frame.Notice?
      modifies this
      ensures old(Valid()) ==> Valid()
      ensures ok <==> !Refuses(old(Value()), item.size, lim)
      ensures Value() == Send(old(Value()), item, lim)
    {
      if Valid() { NoticeKeeps(Value(), item, lim); }
      ok := Put(item);
    }

    method Put(item: Item) returns (ok: bool)
      modifies this
      ensures ok <==> !Refuses(old(Value()), item.size, lim)
      ensures Value() == Send(old(Value()), item, lim)
    {
      if closed || |queue| >= lim.cap || queuedBytes + item.size > lim.byteCap { return false; }
      queue := queue + [item];
      queuedBytes := queuedBytes + item.size;
      accepted := accepted + [item.frame];
      return true;
    }

    /** A wrapper frame is queued whole, or its refusal is what the connection misses. */
    method Deliver(item: Item) returns (ok: bool)
      requires item.frame.FromWrapper?
      modifies this
      ensures Value() == Route(old(Value()), item, lim)
      ensures ok <==> !Refuses(old(Value()), item.size, lim)
      ensures old(Valid() && UpToDate(Value())) ==> Valid() && (ok <==> UpToDate(Value()))
    {
      if Valid() && UpToDate(Value()) { RouteKeeps(Value(), item, lim); }
      ok := Put(item);
      addressed := addressed + [item.frame];
    }

    /** One turn of the sender loop: take a frame off the queue. */
    method TakeNext()
      requires sender.Idle? && queue != []
      modifies this
      ensures old(Valid()) ==> Valid()
      ensures Value() == Take(old(Value()))
    {
      if Valid() { TakeKeeps(Value(), lim); }
      var item := queue[0];
      queue := queue[1..];
      queuedBytes := if queuedBytes >= item.size then queuedBytes - item.size else 0;
      sender := Sending(item.frame);
    }

    /** The socket took the frame, or failed and ended the sender. */
    method Sent(ok: bool)
      requires sender.Sending?
      modifies this
      ensures old(Valid()) ==> Valid()
      ensures Value() == Finish(old(Value()), ok)
    {
      if Valid() { SenderKeeps(Value(), ok, lim); }
      if ok {
        sent := sent + [sender.frame];
        sender := Idle;
      } else {
        closed := true;
        sender := Ended;
      }
    }

    /** Closes the connection: nothing is queued from now on. */
    method Close()
      modifies this
      ensures old(Valid()) ==> Valid()
      ensures Value() == Stop(old(Value()))
    {
      if Valid() { SenderKeeps(Value(), true, lim); }
      closed := true;
    }

    /** Ends the sender of a closed connection. */
    method CancelSender()
      requires closed
      modifies this
      ensures old(Valid()) ==> Valid()
      ensures Value() == Cancel(old(Value()))
    {
      if Valid() { SenderKeeps(Value(), true, lim); }
      sender := Ended;
    }

    /** Closes the connection, then cancels its sender. */
    method StopSending()
      modifies this
      ensures old(Valid()) ==> Valid()
      ensures Value() == Cancel(Stop(old(Value())))
    {
      Close();
      CancelSender();
    }
  }
}
