/**
 The relay hub as interleaved steps: what happens under its lock is one step, and
 the wrapper send lock is held from the ownership check to the send.

 Connection ids grow with registration, so a later generation of a client has a
 larger id; the id doubles as the connection's route id.
 */
module RelayHub {
  import opened Wrappers
  import opened RelayConn

  const MAX_NAMED_WRAPPERS := 256

  datatype Machine = Default | Named(name: string)

  datatype ClientId = ClientId(text: string)

  datatype Key = Key(machine: Machine, clientId: ClientId)

  type ConnId = nat

  datatype Event = Registered(key: Key, conn: ConnId) | Forwarded(key: Key, conn: ConnId)

  /**
   `sending` is the connection inside the wrapper send lock past its ownership
   check; `dropping` holds connections that refused a wrapper frame and whose
   removal the wrapper's handler has still to finish. `latest` and `log` record
   registrations and forwarded frames.
   */
  datatype Hub = Hub(clients: map<Key, ConnId>, conns: map<ConnId, Conn>, keys: map<ConnId, Key>, next: ConnId,
                     slots: set<nat>, wrappers: map<Machine, nat>, sending: Option<ConnId>, dropping: set<ConnId>,
                     latest: map<Key, ConnId>, log: seq<Event>)

  const EMPTY_HUB := Hub(map[], map[], map[], 0, {}, map[], None, {}, map[], [])

  datatype Action =
    | OpenSlot(slot: nat) | CloseSlot(slot: nat)
    | WrapperHello(machine: Machine, socket: nat) | WrapperGone(machine: Machine, socket: nat)
    | Register(key: Key) | Leave(conn: ConnId)
    | ForwardCheck(conn: ConnId) | ForwardSend
    | WrapperFrame(machine: Machine, to: Option<ClientId>, item: Item) | DropRefused(conn: ConnId)
    | ConnStep(conn: ConnId, step: ConnAction)

  // ---------- steps ----------

  /** At most one probe slot beyond the client cap. */
  function DoOpenSlot(s: Hub, slot: nat, lim: Limits): Hub {
    if |s.slots| >= lim.maxClients + 1 then s else s.(slots := s.slots + {slot})
  }

  function NamedMachines(wrappers: map<Machine, nat>): set<Machine> {
    wrappers.Keys - {Default}
  }

  /** A machine keeps the wrapper it has; named machines are capped. */
  function DoWrapperHello(s: Hub, machine: Machine, socket: nat): Hub {
    if machine in s.wrappers then s
    else if machine != Default && |NamedMachines(s.wrappers)| >= MAX_NAMED_WRAPPERS then s
    else s.(wrappers := s.wrappers[machine := socket])
  }

  function DoWrapperGone(s: Hub, machine: Machine, socket: nat): Hub {
    if machine in s.wrappers && s.wrappers[machine] == socket && !DroppingFor(s, machine)
    then s.(wrappers := s.wrappers - {machine}) else s
  }

  predicate DroppingFor(s: Hub, machine: Machine) {
    exists c | c in s.dropping :: c in s.keys && s.keys[c].machine == machine
  }

  /** A new generation of a client; it waits while a forward holds the send lock. */
  function DoRegister(s: Hub, key: Key, lim: Limits): Hub {
    if s.sending.Some? || (key !in s.clients && |s.clients| >= lim.maxClients) then s
    else
      s.(clients := s.clients[key := s.next], conns := s.conns[s.next := NEW_CONN], keys := s.keys[s.next := key],
         next := s.next + 1, latest := s.latest[key := s.next], log := s.log + [Registered(key, s.next)])
  }

  predicate Owns(s: Hub, c: ConnId) {
    c in s.keys && s.keys[c] in s.clients && s.clients[s.keys[c]] == c
  }

  function DoConnStep(s: Hub, c: ConnId, step: ConnAction, lim: Limits): Hub {
    if c in s.conns then s.(conns := s.conns[c := ConnNext(s.conns[c], step, lim)]) else s
  }

  /** Deregister if still the owner, and close. */
  function DoLeave(s: Hub, c: ConnId): Hub {
    if c !in s.conns then s
    else s.(clients := if Owns(s, c) then s.clients - {s.keys[c]} else s.clients,
            conns := s.conns[c := Stop(s.conns[c])], dropping := s.dropping - {c})
  }

  /** Take the send lock and check ownership; a connection that is not the owner goes no further. */
  function DoForwardCheck(s: Hub, c: ConnId): Hub {
    if s.sending.Some? || !Owns(s, c) || s.keys[c].machine !in s.wrappers then s else s.(sending := Some(c))
  }

  function DoForwardSend(s: Hub): Hub {
    if s.sending.None? || s.sending.value !in s.keys then s
    else s.(sending := None, log := s.log + [Forwarded(s.keys[s.sending.value], s.sending.value)])
  }

  /** Where a wrapper frame goes: the named client unless its route is stale, or every client of the machine. */
  function Targets(s: Hub, machine: Machine, to: Option<ClientId>, f: Frame): set<ConnId>
    requires f.FromWrapper?
  {
    match to
    case Some(clientId) =>
      var k := Key(machine, clientId);
      if k in s.clients && (f.route == NO_ROUTE || f.route == s.clients[k]) then {s.clients[k]} else {}
    case None => set k | k in s.clients && k.machine == machine :: s.clients[k]
  }

  predicate FrameAllowed(s: Hub, machine: Machine, to: Option<ClientId>, item: Item) {
    && machine in s.wrappers && !DroppingFor(s, machine)
    && item.frame.FromWrapper? && (item.frame.direct <==> to.Some?)
  }

  /** Handled only after every drop of the previous frame of this wrapper is finished. */
  function DoWrapperFrame(s: Hub, machine: Machine, to: Option<ClientId>, item: Item, lim: Limits): Hub {
    if !FrameAllowed(s, machine, to, item) then s
    else
      var targets := Targets(s, machine, to, item.frame);
      s.(conns := map c | c in s.conns :: if c in targets then Route(s.conns[c], item, lim) else s.conns[c],
         dropping := s.dropping + set c | c in targets && c in s.conns && Refuses(s.conns[c], item.size, lim))
  }

  function Next(s: Hub, a: Action, lim: Limits): Hub {
    match a
    case OpenSlot(slot) => DoOpenSlot(s, slot, lim)
    case CloseSlot(slot) => s.(slots := s.slots - {slot})
    case WrapperHello(machine, socket) => DoWrapperHello(s, machine, socket)
    case WrapperGone(machine, socket) => DoWrapperGone(s, machine, socket)
    case Register(key) => DoRegister(s, key, lim)
    case Leave(c) => DoLeave(s, c)
    case ForwardCheck(c) => DoForwardCheck(s, c)
    case ForwardSend => DoForwardSend(s)
    case WrapperFrame(machine, to, item) => DoWrapperFrame(s, machine, to, item, lim)
    case DropRefused(c) => if c in s.dropping then DoLeave(s, c) else s
    case ConnStep(c, step) => DoConnStep(s, c, step, lim)
  }

  // ---------- invariant ----------

  /** A direct frame with a route id was routed only to the connection of that id. */
  ghost predicate RoutesMatch(c: ConnId, conn: Conn) {
    forall i | 0 <= i < |conn.addressed| ::
      conn.addressed[i].FromWrapper? && conn.addressed[i].direct && conn.addressed[i].route != NO_ROUTE ==>
          conn.addressed[i].route == c
  }

  ghost predicate ConnFine(s: Hub, c: ConnId, lim: Limits)
    requires c in s.conns
  {
    c < s.next && c in s.keys && ConnOk(s.conns[c], lim) && RoutesMatch(c, s.conns[c])
  }

  /** The owner of a client id is its latest generation, and misses nothing unless it is being dropped. */
  ghost predicate ClientFine(s: Hub, k: Key)
    requires k in s.clients
  {
    var c := s.clients[k];
    && c in s.conns && c in s.keys && s.keys[c] == k
    && k in s.latest && s.latest[k] == c
    && (c in s.dropping || UpToDate(s.conns[c]))
  }

  ghost predicate LatestFine(s: Hub) {
    && (forall k | k in s.latest :: s.latest[k] < s.next && s.latest[k] in s.keys && s.keys[s.latest[k]] == k)
    && (s.sending.Some? ==>
          s.sending.value in s.keys && s.keys[s.sending.value] in s.latest
              && s.latest[s.keys[s.sending.value]] == s.sending.value)
  }

  /** No forward by an older generation comes after the registration of a newer one. */
  ghost predicate LogFine(s: Hub) {
    && (forall i | 0 <= i < |s.log| && s.log[i].Registered? ::
          s.log[i].key in s.latest && s.log[i].conn <= s.latest[s.log[i].key])
    && forall i, j | 0 <= i < j < |s.log| && s.log[i].Registered? && s.log[j].Forwarded?
        && s.log[i].key == s.log[j].key ::
         s.log[i].conn <= s.log[j].conn
  }

  ghost predicate ConnsFine(s: Hub, lim: Limits) {
    && s.keys.Keys == s.conns.Keys
    && (forall c {:trigger ConnFine(s, c, lim)} | c in s.conns :: ConnFine(s, c, lim))
    && (forall k {:trigger ClientFine(s, k)} | k in s.clients :: ClientFine(s, k))
  }

  ghost predicate CapsFine(s: Hub, lim: Limits) {
    |s.clients| <= lim.maxClients && |s.slots| <= lim.maxClients + 1
        && |NamedMachines(s.wrappers)| <= MAX_NAMED_WRAPPERS
  }

  ghost predicate Inv(s: Hub, lim: Limits) {
    ConnsFine(s, lim) && LatestFine(s) && LogFine(s) && CapsFine(s, lim)
  }

  // ---------- every step keeps it ----------

  lemma {:induction false} SlotCaps(s: Hub, slot: nat, lim: Limits)
    requires CapsFine(s, lim)
    ensures CapsFine(DoOpenSlot(s, slot, lim), lim) && CapsFine(s.(slots := s.slots - {slot}), lim)
  {
    assert slot in s.slots ==> s.slots + {slot} == s.slots;
    SubsetSize(s.slots - {slot}, s.slots);
  }

  lemma {:induction false} HelloCaps(s: Hub, machine: Machine, socket: nat, lim: Limits)
    requires CapsFine(s, lim)
    ensures CapsFine(DoWrapperHello(s, machine, socket), lim)
  {
    var more := NamedMachines(s.wrappers[machine := socket]);
    AddSize(NamedMachines(s.wrappers), machine);
    if machine == Default {
      assert more <= NamedMachines(s.wrappers);
      SubsetSize(more, NamedMachines(s.wrappers));
    } else {
      assert more <= NamedMachines(s.wrappers) + {machine};
      SubsetSize(more, NamedMachines(s.wrappers) + {machine});
    }
  }

  lemma {:induction false} GoneCaps(s: Hub, machine: Machine, socket: nat, lim: Limits)
    requires CapsFine(s, lim)
    ensures CapsFine(DoWrapperGone(s, machine, socket), lim)
  {
    SubsetSize(NamedMachines(s.wrappers - {machine}), NamedMachines(s.wrappers));
  }

  lemma {:induction false} RegisterCaps(s: Hub, key: Key, lim: Limits)
    requires CapsFine(s, lim)
    ensures CapsFine(DoRegister(s, key, lim), lim)
  {
    PutSize(s.clients, key, s.next);
  }

  lemma {:induction false} PutSize<K, V>(m: map<K, V>, k: K, v: V)
    ensures |m[k := v]| == if k in m then |m| else |m| + 1
  {
    var more := m[k := v];
    assert more.Keys == m.Keys + {k};
    assert |more.Keys| == |more| && |m.Keys| == |m|;
    if k in m { assert more.Keys == m.Keys; }
  }

  lemma {:induction false} LeaveCaps(s: Hub, c: ConnId, lim: Limits)
    requires CapsFine(s, lim)
    ensures CapsFine(DoLeave(s, c), lim)
  {
    if Owns(s, c) {
      var fewer := s.clients - {s.keys[c]};
      SubsetSize(fewer.Keys, s.clients.Keys);
      assert |fewer.Keys| == |fewer| && |s.clients.Keys| == |s.clients|;
    }
  }

  lemma {:induction false} CapsKept(s: Hub, a: Action, lim: Limits)
    requires CapsFine(s, lim)
    ensures CapsFine(Next(s, a, lim), lim)
  {
    if a.OpenSlot? || a.CloseSlot? || a.WrapperHello? || a.WrapperGone? {
      SocketCapsKept(s, a, lim);
    } else if a.Register? || a.Leave? || a.DropRefused? {
      ClientCapsKept(s, a, lim);
    } else {
      OtherCapsKept(s, a, lim);
    }
  }

  lemma {:induction false} SocketCapsKept(s: Hub, a: Action, lim: Limits)
    requires CapsFine(s, lim) && (a.OpenSlot? || a.CloseSlot? || a.WrapperHello? || a.WrapperGone?)
    ensures CapsFine(Next(s, a, lim), lim)
  {
    match a {
      case OpenSlot(slot) => SlotCaps(s, slot, lim);
      case CloseSlot(slot) => SlotCaps(s, slot, lim);
      case WrapperHello(machine, socket) => HelloCaps(s, machine, socket, lim);
      case WrapperGone(machine, socket) => GoneCaps(s, machine, socket, lim);
    }
  }

  lemma {:induction false} ClientCapsKept(s: Hub, a: Action, lim: Limits)
    requires CapsFine(s, lim) && (a.Register? || a.Leave? || a.DropRefused?)
    ensures CapsFine(Next(s, a, lim), lim)
  {
    match a {
      case Register(key) => RegisterCaps(s, key, lim);
      case Leave(c) => LeaveCaps(s, c, lim);
      case DropRefused(c) => LeaveCaps(s, c, lim);
    }
  }

  lemma {:induction false} OtherCapsKept(s: Hub, a: Action, lim: Limits)
    requires CapsFine(s, lim) && (a.ForwardCheck? || a.ForwardSend? || a.WrapperFrame? || a.ConnStep?)
    ensures CapsFine(Next(s, a, lim), lim)
  {
    match a {
      case ForwardCheck(c) => ForwardCaps(s, c);
      case ForwardSend => ForwardCaps(s, 0);
      case WrapperFrame(machine, to, item) => FrameCaps(s, machine, to, item, lim);
      case ConnStep(c, step) => ConnCaps(s, c, step, lim);
    }
  }

  predicate SameCaps(s: Hub, s': Hub) {
    s'.clients == s.clients && s'.slots == s.slots && s'.wrappers == s.wrappers
  }

  lemma {:induction false} ForwardCaps(s: Hub, c: ConnId)
    ensures SameCaps(s, DoForwardCheck(s, c)) && SameCaps(s, DoForwardSend(s))
  {
  }

  lemma {:induction false} FrameCaps(s: Hub, machine: Machine, to: Option<ClientId>, item: Item, lim: Limits)
    ensures SameCaps(s, DoWrapperFrame(s, machine, to, item, lim))
  {
  }

  lemma {:induction false} ConnCaps(s: Hub, c: ConnId, step: ConnAction, lim: Limits)
    ensures SameCaps(s, DoConnStep(s, c, step, lim))
  {
  }

  lemma {:induction false} AddSize<T>(a: set<T>, x: T)
    ensures |a + {x}| <= |a| + 1
  {
    if x in a { assert a + {x} == a; }
  }

  lemma {:induction false} SubsetSize<T>(a: set<T>, b: set<T>)
    requires a <= b
    ensures |a| <= |b|
  {
    assert b == a + (b - a);
  }

  lemma {:induction false} RegisterLog(s: Hub, key: Key, lim: Limits)
    requires LatestFine(s) && LogFine(s)
    ensures LatestFine(DoRegister(s, key, lim)) && LogFine(DoRegister(s, key, lim))
  {
    var s' := DoRegister(s, key, lim);
    forall i | 0 <= i < |s'.log| && s'.log[i].Registered?
      ensures s'.log[i].key in s'.latest && s'.log[i].conn <= s'.latest[s'.log[i].key]
    {
      if i < |s.log| { assert s'.log[i] == s.log[i]; }
    }
    forall i, j | 0 <= i < j < |s'.log| && s'.log[i].Registered? && s'.log[j].Forwarded?
        && s'.log[i].key == s'.log[j].key
      ensures s'.log[i].conn <= s'.log[j].conn
    {
      assert s'.log[i] == s.log[i] && s'.log[j] == s.log[j];
    }
  }

  lemma {:induction false} ForwardLog(s: Hub, c: ConnId)
    requires LatestFine(s) && LogFine(s) && (Owns(s, c) ==> ClientFine(s, s.keys[c]))
    ensures LatestFine(DoForwardCheck(s, c)) && LogFine(DoForwardCheck(s, c))
    ensures LatestFine(DoForwardSend(s)) && LogFine(DoForwardSend(s))
  {
    var s' := DoForwardSend(s);
    assert forall i | 0 <= i < |s.log| :: s'.log[i] == s.log[i];
  }

  predicate Logs(a: Action) {
    a.Register? || a.ForwardSend? || a.ForwardCheck?
  }

  predicate SameHistory(s: Hub, s': Hub) {
    s'.log == s.log && s'.latest == s.latest && s'.keys == s.keys && s'.next == s.next && s'.sending == s.sending
  }

  lemma {:induction false} SlotUnlogged(s: Hub, slot: nat, lim: Limits)
    ensures SameHistory(s, DoOpenSlot(s, slot, lim)) && SameHistory(s, s.(slots := s.slots - {slot}))
  {
  }

  lemma {:induction false} WrapperUnlogged(s: Hub, machine: Machine, socket: nat)
    ensures SameHistory(s, DoWrapperHello(s, machine, socket)) && SameHistory(s, DoWrapperGone(s, machine, socket))
  {
  }

  lemma {:induction false} ConnUnlogged(s: Hub, c: ConnId, step: ConnAction, lim: Limits)
    ensures SameHistory(s, DoConnStep(s, c, step, lim)) && SameHistory(s, DoLeave(s, c))
  {
  }

  lemma {:induction false} FrameUnlogged(s: Hub, machine: Machine, to: Option<ClientId>, item: Item, lim: Limits)
    ensures SameHistory(s, DoWrapperFrame(s, machine, to, item, lim))
  {
  }

  lemma {:induction false} UnloggedKept(s: Hub, a: Action, lim: Limits)
    requires !Logs(a)
    ensures SameHistory(s, Next(s, a, lim))
  {
    match a {
      case OpenSlot(slot) => SlotUnlogged(s, slot, lim);
      case CloseSlot(slot) => SlotUnlogged(s, slot, lim);
      case WrapperHello(machine, socket) => WrapperUnlogged(s, machine, socket);
      case WrapperGone(machine, socket) => WrapperUnlogged(s, machine, socket);
      case Leave(c) => ConnUnlogged(s, c, StopConn, lim);
      case DropRefused(c) => ConnUnlogged(s, c, StopConn, lim);
      case ConnStep(c, step) => ConnUnlogged(s, c, step, lim);
      case WrapperFrame(machine, to, item) => FrameUnlogged(s, machine, to, item, lim);
    }
  }

  lemma {:induction false} LogKept(s: Hub, a: Action, lim: Limits)
    requires ConnsFine(s, lim) && LatestFine(s) && LogFine(s)
    ensures LatestFine(Next(s, a, lim)) && LogFine(Next(s, a, lim))
  {
    if !Logs(a) {
      UnloggedKept(s, a, lim);
      SameLog(s, Next(s, a, lim));
      return;
    }
    match a
    case Register(key) => RegisterLog(s, key, lim);
    case ForwardSend => ForwardLog(s, s.next);
    case ForwardCheck(c) =>
      if Owns(s, c) { assert ClientFine(s, s.keys[c]); }
      ForwardLog(s, c);
  }

  lemma {:induction false} SameLog(s: Hub, s': Hub)
    requires LatestFine(s) && LogFine(s) && SameHistory(s, s')
    ensures LatestFine(s') && LogFine(s')
  {
  }

  lemma {:induction false} ConnStepKept(s: Hub, c: ConnId, step: ConnAction, lim: Limits)
    requires ConnsFine(s, lim)
    ensures ConnsFine(DoConnStep(s, c, step, lim), lim)
  {
    var s' := DoConnStep(s, c, step, lim);
    if c in s.conns {
      assert ConnFine(s, c, lim);
      ConnNextKeeps(s.conns[c], step, lim);
    }
    assert s'.conns.Keys == s.conns.Keys;
    forall d | d in s'.conns ensures ConnFine(s', d, lim) {
      assert ConnFine(s, d, lim);
    }
    forall k | k in s'.clients ensures ClientFine(s', k) {
      assert ClientFine(s, k);
    }
  }

  lemma {:induction false} LeaveKept(s: Hub, c: ConnId, lim: Limits)
    requires ConnsFine(s, lim)
    ensures ConnsFine(DoLeave(s, c), lim)
  {
    if c in s.conns {
      var s' := DoLeave(s, c);
      assert ConnFine(s, c, lim);
      SenderKeeps(s.conns[c], true, lim);
      assert s'.conns.Keys == s.conns.Keys;
      forall d | d in s'.conns ensures ConnFine(s', d, lim) {
        assert ConnFine(s, d, lim);
      }
      forall k | k in s'.clients ensures ClientFine(s', k) {
        assert ClientFine(s, k);
      }
    }
  }

  lemma {:induction false} NextIsFresh(s: Hub, lim: Limits)
    requires ConnsFine(s, lim)
    ensures s.next !in s.conns && s.next !in s.keys
  {
    forall d | d in s.conns ensures d < s.next {
      assert ConnFine(s, d, lim);
    }
  }

  lemma {:induction false} RegisteredConn(s: Hub, key: Key, c: ConnId, lim: Limits)
    requires ConnsFine(s, lim) && c in DoRegister(s, key, lim).conns
    ensures ConnFine(DoRegister(s, key, lim), c, lim)
  {
    if c in s.conns {
      assert ConnFine(s, c, lim);
      NextIsFresh(s, lim);
    }
  }

  lemma {:induction false} RegisteredClient(s: Hub, key: Key, k: Key, lim: Limits)
    requires ConnsFine(s, lim) && k in DoRegister(s, key, lim).clients
    ensures ClientFine(DoRegister(s, key, lim), k)
  {
    if k in s.clients {
      assert ClientFine(s, k);
      NextIsFresh(s, lim);
    }
  }

  lemma {:induction false} RegisterKept(s: Hub, key: Key, lim: Limits)
    requires ConnsFine(s, lim)
    ensures ConnsFine(DoRegister(s, key, lim), lim)
  {
    var s' := DoRegister(s, key, lim);
    forall c | c in s'.conns ensures ConnFine(s', c, lim) {
      RegisteredConn(s, key, c, lim);
    }
    forall k | k in s'.clients ensures ClientFine(s', k) {
      RegisteredClient(s, key, k, lim);
    }
  }

  lemma {:induction false} FrameKept(s: Hub, machine: Machine, to: Option<ClientId>, item: Item, lim: Limits)
    requires ConnsFine(s, lim)
    ensures ConnsFine(DoWrapperFrame(s, machine, to, item, lim), lim)
  {
    if FrameAllowed(s, machine, to, item) {
      var targets := Targets(s, machine, to, item.frame);
      var s' := DoWrapperFrame(s, machine, to, item, lim);
      assert s'.conns.Keys == s.conns.Keys;
      forall d | d in s'.conns
        ensures ConnFine(s', d, lim)
        ensures Owns(s, d) ==> d in s'.dropping || UpToDate(s'.conns[d])
      {
        assert ConnFine(s, d, lim);
        if Owns(s, d) { assert ClientFine(s, s.keys[d]); }
        if d in targets {
          TargetIsOwner(s, machine, to, item.frame, d);
          SendKeeps(s.conns[d], item, lim);
        }
      }
      forall k | k in s'.clients ensures ClientFine(s', k) {
        assert ClientFine(s, k);
        assert Owns(s, s.clients[k]);
      }
    }
  }

  /** A target owns its client id on this machine, and a stale route has no target. */
  lemma {:induction false} TargetIsOwner(s: Hub, machine: Machine, to: Option<ClientId>, f: Frame, c: ConnId)
    requires f.FromWrapper? && (f.direct <==> to.Some?) && c in Targets(s, machine, to, f)
    requires forall k {:trigger ClientFine(s, k)} | k in s.clients :: ClientFine(s, k)
    ensures Owns(s, c) && s.keys[c].machine == machine && c in s.conns
    ensures f.direct && f.route != NO_ROUTE ==> f.route == c
    ensures !DroppingFor(s, machine) ==> UpToDate(s.conns[c])
  {
    var k :| k in s.clients && s.clients[k] == c && k.machine == machine;
    assert ClientFine(s, k);
  }

  predicate TouchesClients(a: Action) {
    a.Register? || a.Leave? || a.DropRefused? || a.WrapperFrame? || a.ConnStep?
  }

  predicate SameClients(s: Hub, s': Hub) {
    && s'.clients == s.clients && s'.conns == s.conns && s'.keys == s.keys && s'.next == s.next
    && s'.dropping == s.dropping && s'.latest == s.latest
  }

  lemma {:induction false} SlotsOnly(s: Hub, slot: nat, lim: Limits)
    ensures SameClients(s, DoOpenSlot(s, slot, lim)) && SameClients(s, s.(slots := s.slots - {slot}))
  {
  }

  lemma {:induction false} WrappersOnly(s: Hub, machine: Machine, socket: nat)
    ensures SameClients(s, DoWrapperHello(s, machine, socket)) && SameClients(s, DoWrapperGone(s, machine, socket))
  {
  }

  lemma {:induction false} SendingOnly(s: Hub, c: ConnId)
    ensures SameClients(s, DoForwardCheck(s, c)) && SameClients(s, DoForwardSend(s))
  {
  }

  lemma {:induction false} ClientsUntouched(s: Hub, a: Action, lim: Limits)
    requires !TouchesClients(a)
    ensures SameClients(s, Next(s, a, lim))
  {
    match a {
      case OpenSlot(slot) => SlotsOnly(s, slot, lim);
      case CloseSlot(slot) => SlotsOnly(s, slot, lim);
      case WrapperHello(machine, socket) => WrappersOnly(s, machine, socket);
      case WrapperGone(machine, socket) => WrappersOnly(s, machine, socket);
      case ForwardCheck(c) => SendingOnly(s, c);
      case ForwardSend => SendingOnly(s, 0);
    }
  }

  lemma {:induction false} ConnsKept(s: Hub, a: Action, lim: Limits)
    requires ConnsFine(s, lim)
    ensures ConnsFine(Next(s, a, lim), lim)
  {
    if !TouchesClients(a) {
      ClientsUntouched(s, a, lim);
      SameConns(s, Next(s, a, lim), lim);
      return;
    }
    match a
    case Register(key) => RegisterKept(s, key, lim);
    case Leave(c) => LeaveKept(s, c, lim);
    case DropRefused(c) => LeaveKept(s, c, lim);
    case WrapperFrame(machine, to, item) => FrameKept(s, machine, to, item, lim);
    case ConnStep(c, step) => ConnStepKept(s, c, step, lim);
  }

  lemma {:induction false} SameConns(s: Hub, s': Hub, lim: Limits)
    requires ConnsFine(s, lim)
    requires s'.clients == s.clients && s'.conns == s.conns && s'.keys == s.keys && s'.next == s.next
    requires s'.dropping == s.dropping && s'.latest == s.latest
    ensures ConnsFine(s', lim)
  {
    forall d | d in s'.conns ensures ConnFine(s', d, lim) { assert ConnFine(s, d, lim); }
    forall k | k in s'.clients ensures ClientFine(s', k) { assert ClientFine(s, k); }
  }

  lemma {:induction false} NextKeepsInv(s: Hub, a: Action, lim: Limits)
    requires Inv(s, lim)
    ensures Inv(Next(s, a, lim), lim)
  {
    CapsKept(s, a, lim);
    LogKept(s, a, lim);
    ConnsKept(s, a, lim);
  }

  function RunHub(actions: seq<Action>, lim: Limits): Hub {
    if actions == [] then EMPTY_HUB
    else Next(RunHub(actions[..|actions| - 1], lim), actions[|actions| - 1], lim)
  }

  lemma {:induction false} RunKeepsInv(actions: seq<Action>, lim: Limits)
    requires ValidLimits(lim)
    ensures Inv(RunHub(actions, lim), lim)
  {
    if actions != [] {
      var before := actions[..|actions| - 1];
      RunKeepsInv(before, lim);
      NextKeepsInv(RunHub(before, lim), actions[|actions| - 1], lim);
    }
  }

  // ---------- what every interleaving guarantees ----------

  /** Once a generation is registered, no older one of the same client and machine is forwarded. */
  lemma {:induction false} NoStaleForward(actions: seq<Action>, lim: Limits, i: nat, j: nat)
    requires ValidLimits(lim)
    requires i < j < |RunHub(actions, lim).log|
    requires RunHub(actions, lim).log[i].Registered? && RunHub(actions, lim).log[j].Forwarded?
    requires RunHub(actions, lim).log[i].key == RunHub(actions, lim).log[j].key
    ensures RunHub(actions, lim).log[j].conn >= RunHub(actions, lim).log[i].conn
  {
    RunKeepsInv(actions, lim);
  }

  /** What a connection's socket got from the wrapper is a gap-free prefix of what was routed to it. */
  lemma {:induction false} DeliveryIsGapFree(actions: seq<Action>, lim: Limits, c: ConnId)
    requires ValidLimits(lim) && c in RunHub(actions, lim).conns
    ensures var conn := RunHub(actions, lim).conns[c];
            && OnlyWrapper(conn.sent) <= conn.addressed
            && conn.bytes == Sizes(conn.queue) <= lim.byteCap && |conn.queue| <= lim.cap
            && RoutesMatch(c, conn)
  {
    RunKeepsInv(actions, lim);
    assert ConnFine(RunHub(actions, lim), c, lim);
    SentIsGapFree(RunHub(actions, lim).conns[c], lim);
  }

  /** Clients stay within the cap and open slots within the cap plus one. */
  lemma {:induction false} CapsHold(actions: seq<Action>, lim: Limits)
    requires ValidLimits(lim)
    ensures |RunHub(actions, lim).clients| <= lim.maxClients
    ensures |RunHub(actions, lim).slots| <= lim.maxClients + 1
    ensures |NamedMachines(RunHub(actions, lim).wrappers)| <= MAX_NAMED_WRAPPERS
  {
    RunKeepsInv(actions, lim);
  }
}
