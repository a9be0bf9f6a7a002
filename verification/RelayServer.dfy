/**
 The relay hub object. Each method is the part of a handler that runs without
 interruption and makes exactly one step of the hub, so what is proved of every
 run of steps holds of every interleaving of these calls.
 */
module RelayServer {
  import opened Wrappers
  import opened RelayConn
  import opened RelayHub

  class RelayServer {
    const lim: Limits
    var clients: map<Key, ConnId>
    var conns: map<ConnId, Conn>
    var keys: map<ConnId, Key>
    var next: ConnId
    var slots: set<nat>
    var wrappers: map<Machine, nat>
    var sending: Option<ConnId>
    var dropping: set<ConnId>
    ghost var latest: map<Key, ConnId>
    ghost var log: seq<Event>

    ghost function State(): Hub
      reads this
    {
      Hub(clients, conns, keys, next, slots, wrappers, sending, dropping, latest, log)
    }

    constructor (lim: Limits)
      ensures State() == EMPTY_HUB && this.lim == lim
    {
      this.lim := lim;
      clients, conns, keys, next := map[], map[], map[], 0;
      slots, wrappers, sending, dropping := {}, map[], None, {};
      latest, log := map[], [];
    }

    /** One bounded probe slot lets a reconnect present its id when capacity is full. */
    method AdmitSlot(slot: nat) returns (admitted: bool)
      modifies this
      ensures State() == Next(old(State()), OpenSlot(slot), lim)
      ensures admitted <==> |old(slots)| <= lim.maxClients
    {
      admitted := |slots| < lim.maxClients + 1;
      if admitted { slots := slots + {slot}; }
    }

    /** Both locks are held, so no forward is between its check and its send. */
    method RegisterClient(key: Key) returns (conn: Option<ConnId>, replaced: Option<ConnId>)
      requires sending.None?
      modifies this
      ensures State() == Next(old(State()), Register(key), lim)
      ensures conn.None? <==> key !in old(clients) && |old(clients)| >= lim.maxClients
      ensures conn.Some? ==> clients == old(clients)[key := conn.value]
      ensures replaced.Some? <==> conn.Some? && key in old(clients)
      ensures replaced.Some? ==> replaced.value == old(clients)[key]
    {
      if key !in clients && |clients| >= lim.maxClients { return None, None; }
      if key in clients {
        replaced := Some(clients[key]);
      } else {
        replaced := None;
      }
      conn := Some(next);
      clients := clients[key := next];
      conns := conns[next := NEW_CONN];
      keys := keys[next := key];
      latest := latest[key := next];
      log := log + [Registered(key, next)];
      next := next + 1;
    }

    /** Remove a connection that still owns its client id, and close it. */
    method DropClient(c: ConnId)
      requires c in conns
      modifies this
      ensures State() == Next(old(State()), Leave(c), lim)
      ensures !Owns(State(), c) && conns[c].closed
    {
      if c in keys && keys[c] in clients && clients[keys[c]] == c {
        clients := clients - {keys[c]};
      }
      conns := conns[c := Stop(conns[c])];
      dropping := dropping - {c};
    }

    /** Forward only while the connection owns its client id; the send lock stays held until the send. */
    method CheckOwnership(c: ConnId) returns (current: bool)
      requires sending.None?
      modifies this
      ensures State() == Next(old(State()), ForwardCheck(c), lim)
      ensures current <==> Owns(old(State()), c)
    {
      current := c in keys && keys[c] in clients && clients[keys[c]] == c;
      if current && keys[c].machine in wrappers { sending := Some(c); }
    }

    method SendToWrapper()
      requires sending.Some? && sending.value in keys
      modifies this
      ensures State() == Next(old(State()), ForwardSend, lim)
      ensures log == old(log) + [Forwarded(keys[old(sending).value], old(sending).value)] && sending.None?
    {
      log := log + [Forwarded(keys[sending.value], sending.value)];
      sending := None;
    }

    /** Route a wrapper frame to its client, or broadcast it; refusals are left in `dropping`. */
    method OnWrapperFrame(machine: Machine, to: Option<ClientId>, item: Item)
      requires FrameAllowed(State(), machine, to, item)
      modifies this
      ensures State() == Next(old(State()), WrapperFrame(machine, to, item), lim)
    {
      var targets: set<ConnId> := {};
      if to.Some? {
        var k := Key(machine, to.value);
        if k in clients && (item.frame.route == NO_ROUTE || item.frame.route == clients[k]) { targets := {clients[k]}; }
      } else {
        targets := set k | k in clients && k.machine == machine :: clients[k];
      }
      assert targets == Targets(State(), machine, to, item.frame);
      RouteAll(targets, item);
    }

    method RouteAll(targets: set<ConnId>, item: Item)
      modifies this`conns, this`dropping
      ensures conns == map c | c in old(conns) ::
                if c in targets then Route(old(conns)[c], item, lim) else old(conns)[c]
      ensures dropping == old(dropping) + set c | c in targets && c in old(conns)
              && Refuses(old(conns)[c], item.size, lim)
    {
      var todo := targets;
      while todo != {}
        invariant todo <= targets
        invariant conns == map c | c in old(conns) ::
                  if c in targets - todo then Route(old(conns)[c], item, lim) else old(conns)[c]
        invariant dropping == old(dropping) + set c | c in targets - todo && c in old(conns)
                && Refuses(old(conns)[c], item.size, lim)
      {
        var c :| c in todo;
        if c in conns {
          if Refuses(conns[c], item.size, lim) { dropping := dropping + {c}; }
          conns := conns[c := Route(conns[c], item, lim)];
        }
        todo := todo - {c};
      }
    }

    method ConnectWrapper(machine: Machine, socket: nat) returns (accepted: bool)
      modifies this
      ensures State() == Next(old(State()), WrapperHello(machine, socket), lim)
      ensures accepted ==> machine !in old(wrappers) && wrappers == old(wrappers)[machine := socket]
      ensures !accepted ==> wrappers == old(wrappers)
    {
      if machine in wrappers { return false; }
      if machine != Default && |NamedMachines(wrappers)| >= MAX_NAMED_WRAPPERS { return false; }
      wrappers := wrappers[machine := socket];
      return true;
    }

    /** The wrapper's handler has returned, so none of its drops is unfinished. */
    method DisconnectWrapper(machine: Machine, socket: nat)
      requires !DroppingFor(State(), machine)
      modifies this
      ensures State() == Next(old(State()), WrapperGone(machine, socket), lim)
      ensures machine in old(wrappers) && old(wrappers)[machine] != socket ==> wrappers == old(wrappers)
    {
      if machine in wrappers && wrappers[machine] == socket { wrappers := wrappers - {machine}; }
    }
  }
}
