/**
 * Ports of the runtime (runtime/north/cc_port.c): finding a port by id or
 * by name, the handlers for a peer that connects or disconnects a port,
 * setting up a connection, tearing one down, and moving one token out of
 * an out-port per scheduler round.
 *
 * A port reaches its peer either through a token tunnel to another runtime
 * or directly, when the peer port lives on the same node; in the second
 * case the two ports point at each other. The sends to the peer runtime
 * (port connect, port lookup, token) are outside this model: whether each
 * went out is a boolean parameter.
 */
module CcPort {
  import opened Wrappers
  import opened Machine
  import opened Text
  import opened CcToken
  import opened CcCommon
  import opened CcFifo
  import opened CcLink
  import opened CcTunnel
  import opened CcActor

  /** The objects an optional reference names. */
  function AsSet<T>(o: Option<T>): set<T>
  {
    if o.Some? then {o.value} else {}
  }

  /** The tunnel a port holds, if any: the tunnel whose count dropping the port's reference changes. */
  function TunnelOf(p: Option<Port>): set<Tunnel>
    reads AsSet(p)
  {
    if p.Some? then AsSet(p.value.tunnel) else {}
  }

  /** The links of some tunnels: the links whose counts dropping those tunnels may change. */
  function LinksOf(ts: set<Tunnel>): set<Link>
  {
    set t | t in ts :: t.link
  }

  /** The queues of some ports. */
  function FifosOf(ports: set<Port>): set<Fifo>
  {
    set p | p in ports :: p.fifo
  }

  /** The actors of some ports. */
  function ActorsOf(ports: set<Port>): set<Actor>
  {
    set p | p in ports :: p.actor
  }

  /** The first tunnel whose id agrees with `id` on `n` characters: what `tunnel_get_from_id` returns. */
  function TunnelWithId(tunnels: seq<Tunnel>, id: string, n: nat): (r: Option<Tunnel>)
    reads (set t | t in tunnels)`id
    ensures r.Some? ==> r.value in tunnels && StrNEq(r.value.id, id, n)
  {
    match FirstWithId(tunnels, id, n)
    case Some(i) => Some(tunnels[i])
    case None => None
  }

  // ---------------------------------------------------------------------
  // Lookup

  /** The index of the first port whose id agrees with `id` on `n` characters: `list_get_n` over a port list. */
  function FirstPortWithId(ports: seq<Port>, id: string, n: nat): (r: Option<nat>)
    ensures r.Some? ==> r.value < |ports| && StrNEq(ports[r.value].id, id, n)
  {
    if |ports| == 0 then None
    else if StrNEq(ports[0].id, id, n) then Some(0)
    else match FirstPortWithId(ports[1..], id, n)
      case None => None
      case Some(i) => Some(i + 1)
  }

  /** The port found is the first that matches, and none is found only when no port matches. */
  lemma {:induction false} FirstPortWithIdMeaning(ports: seq<Port>, id: string, n: nat)
    ensures FirstPortWithId(ports, id, n).Some? ==>
      forall j | 0 <= j < FirstPortWithId(ports, id, n).value :: !StrNEq(ports[j].id, id, n)
    ensures FirstPortWithId(ports, id, n).None? ==> forall j | 0 <= j < |ports| :: !StrNEq(ports[j].id, id, n)
  {
    if |ports| > 0 {
      FirstPortWithIdMeaning(ports[1..], id, n);
      assert forall j | 0 < j < |ports| :: ports[1..][j - 1] == ports[j];
    }
  }

  /** An actor's in-ports and out-ports, as lists. */
  type PortLists = (seq<Port>, seq<Port>)

  /** The port lists of each actor, in order. */
  function ListsOf(actors: seq<Actor>): (r: seq<PortLists>)
    reads (set a | a in actors)`inPorts, (set a | a in actors)`outPorts
    ensures |r| == |actors| && forall i | 0 <= i < |actors| :: r[i] == (actors[i].inPorts, actors[i].outPorts)
  {
    if |actors| == 0 then [] else [(actors[0].inPorts, actors[0].outPorts)] + ListsOf(actors[1..])
  }

  /** Actor by actor, the first in-port, then the first out-port, whose id agrees with `id` on `n` characters. */
  function FindIn(lists: seq<PortLists>, id: string, n: nat): (r: Option<Port>)
    ensures r.Some? ==> StrNEq(r.value.id, id, n)
  {
    if |lists| == 0 then None
    else
      match FirstPortWithId(lists[0].0, id, n)
      case Some(i) => Some(lists[0].0[i])
      case None =>
        match FirstPortWithId(lists[0].1, id, n)
        case Some(i) => Some(lists[0].1[i])
        case None => FindIn(lists[1..], id, n)
  }

  /** What `port_get` finds in the node's actors. */
  function FindPort(actors: seq<Actor>, id: string, n: nat): (r: Option<Port>)
    reads (set a | a in actors)`inPorts, (set a | a in actors)`outPorts
  {
    FindIn(ListsOf(actors), id, n)
  }

  /** No port of these lists has an id agreeing with `id` on `n` characters. */
  predicate NoPortWithId(lists: PortLists, id: string, n: nat)
  {
    FirstPortWithId(lists.0, id, n).None? && FirstPortWithId(lists.1, id, n).None?
  }

  /**
   * The lookup finds nothing exactly when no port of any actor has a
   * matching id; what it finds has a matching id and is a port of one of
   * the actors.
   */
  lemma {:induction false} FindInScan(lists: seq<PortLists>, id: string, n: nat)
    ensures FindIn(lists, id, n).None? <==> forall i | 0 <= i < |lists| :: NoPortWithId(lists[i], id, n)
    ensures FindIn(lists, id, n).Some? ==>
      exists i | 0 <= i < |lists| :: FindIn(lists, id, n).value in lists[i].0 + lists[i].1
  {
    if |lists| > 0 {
      FindInScan(lists[1..], id, n);
      var r := FindIn(lists, id, n);
      if NoPortWithId(lists[0], id, n) {
        assert r == FindIn(lists[1..], id, n);
        if r.Some? {
          var i :| 0 <= i < |lists[1..]| && r.value in lists[1..][i].0 + lists[1..][i].1;
          assert lists[1..][i] == lists[i + 1];
        }
        assert forall i | 0 < i < |lists| :: lists[1..][i - 1] == lists[i];
      } else {
        assert r.value in lists[0].0 + lists[0].1;
      }
    }
  }

  /** `port_get` finds a port of one of the node's actors, and finds none only when no actor has a port with a matching id. */
  lemma FindPortScan(actors: seq<Actor>, id: string, n: nat)
    ensures FindPort(actors, id, n).None? <==>
      forall i | 0 <= i < |actors| :: NoPortWithId((actors[i].inPorts, actors[i].outPorts), id, n)
    ensures FindPort(actors, id, n).Some? ==>
      exists i | 0 <= i < |actors| :: FindPort(actors, id, n).value in actors[i].inPorts + actors[i].outPorts
  {
    FindInScan(ListsOf(actors), id, n);
  }

  /** The index of the first port of direction `direction` whose name starts with `name`. */
  function FirstNamed(ports: seq<Port>, name: string, direction: Direction): (r: Option<nat>)
    ensures r.Some? ==> r.value < |ports| && ports[r.value].direction == direction && name <= ports[r.value].name
    ensures r.Some? ==> forall j | 0 <= j < r.value :: !(ports[j].direction == direction && name <= ports[j].name)
    ensures r.None? ==> forall j | 0 <= j < |ports| :: !(ports[j].direction == direction && name <= ports[j].name)
  {
    if |ports| == 0 then None
    else
      assert StrNEq(ports[0].name, name, |name|) <==> name <= ports[0].name by {
        StrNEqIsPrefix(name, ports[0].name);
      }
      if ports[0].direction == direction && StrNEq(ports[0].name, name, |name|) then Some(0)
      else match FirstNamed(ports[1..], name, direction)
        case None => None
        case Some(i) => Some(i + 1)
  }

  /**
   * `port_get_from_name`: in the actor's in-ports or out-ports, as
   * `direction` says, the first port of that direction whose name starts
   * with `name`.
   */
  method GetFromName(actor: Actor, name: string, direction: Direction) returns (r: Option<Port>)
    ensures var ports := if direction == In then actor.inPorts else actor.outPorts;
      r == match FirstNamed(ports, name, direction) case Some(i) => Some(ports[i]) case None => None
  {
    var ports := if direction == In then actor.inPorts else actor.outPorts;
    var i := 0;
    while i < |ports|
      invariant 0 <= i <= |ports|
      invariant forall j | 0 <= j < i :: !(ports[j].direction == direction && name <= ports[j].name)
    {
      StrNEqIsPrefix(name, ports[i].name);
      if ports[i].direction == direction && StrNEq(ports[i].name, name, |name|) {
        assert FirstNamed(ports, name, direction) == Some(i);
        return Some(ports[i]);
      }
      i := i + 1;
    }
    return None;
  }

  // ---------------------------------------------------------------------
  // Connection setup and transmit

  /**
   * A connection to a peer runtime that `port_setup_connection` was asked
   * for: the runtime's id and the length to compare, the node's proxy id (a
   * new link to the proxy is marked as such), the random draws a generated
   * tunnel id is made from, and whether the tunnel request went out.
   */
  datatype PeerRequest = PeerRequest(peerId: string, n: nat, proxyPeerId: string, rand: seq<nat>, sent: bool)

  /** A port keeps its tunnel when setting up a connection if the tunnel is PENDING, or ENABLED and the port connect went out. */
  predicate KeepsTunnel(state: TunnelState, connectSent: bool)
  {
    state == Pending || (state == Enabled && connectSent)
  }

  /** The queue of the port's local peer, if it has one. */
  function PeerFifos(port: Port): set<Fifo>
    reads port
  {
    if port.peerPort.Some? then {port.peerPort.value.fifo} else {}
  }

  /** The slots of the queue of the port's local peer, if it has one. */
  function PeerSlots(port: Port): set<array<Token>>
    reads port
  {
    if port.peerPort.Some? then {port.peerPort.value.fifo.tokens} else {}
  }

  /** The local peer's queue is well formed and shares neither itself nor its slots with the port's. */
  ghost predicate PeerApart(port: Port)
    reads port, PeerFifos(port)
  {
    port.peerPort.Some? ==>
      var q := port.peerPort.value.fifo;
      q.Valid() && q != port.fifo && q.tokens != port.fifo.tokens
  }

  /** An ENABLED port's transmit moves a token when its actor is ENABLED, it is an out-port and a token is waiting. */
  predicate CanMove(port: Port)
    reads port, port.actor, port.fifo
  {
    port.actor.state == ActorEnabled && port.direction == Out && port.fifo.TokensAvailable(1)
  }

  /**
   * The token move of `port_transmit`, `t` being the token peeked. Over a
   * tunnel the token stays peeked once sent, and the peek is undone when
   * the send fails. To a local peer with a free slot the token is written
   * there and the port's oldest token committed, without freeing its
   * buffer, which now belongs to the peer's queue; with no free slot all
   * peeks are cancelled. With neither, the peek is undone.
   */
  twostate predicate Moved(port: Port, tokenSent: bool)
    requires old(port.fifo.Valid() && port.fifo.TokensAvailable(1) && PeerApart(port))
    reads port, port.fifo, port.fifo.tokens, PeerFifos(port), PeerSlots(port)
  {
    var f := port.fifo;
    var t := old(f.Next());
    port.peerPort == old(port.peerPort) && port.tunnel == old(port.tunnel) && f.Valid()
    && (port.tunnel.Some? ==>
          f.Contents() == old(f.Contents()) && f.Peeked() == old(f.Peeked()) + (if tokenSent then 1 else 0))
    && (port.tunnel.None? && port.peerPort.Some? ==>
          var q := port.peerPort.value.fifo;
          q.Valid()
          && if old(q.SlotsAvailable(1)) then
               q.Contents() == old(q.Contents()) + [t] && f.Contents() == old(f.Contents())[1..] && f.Peeked() == old(f.Peeked())
             else
               q.Contents() == old(q.Contents()) && f.Contents() == old(f.Contents()) && f.Peeked() == 0)
    && (port.tunnel.None? && port.peerPort.None? ==> f.Contents() == old(f.Contents()) && f.Peeked() == old(f.Peeked()))
  }

  /** The token move of `port_transmit`, on a port ready to move one. */
  method MoveToken(port: Port, tokenSent: bool)
    requires port.fifo.Valid() && port.fifo.TokensAvailable(1) && PeerApart(port)
    modifies port.fifo`tentativeReadPos, port.fifo`readPos, port.fifo`released, port.fifo.tokens
    modifies PeerFifos(port)`writePos, PeerSlots(port)
    ensures Moved(port, tokenSent)
  {
    var token, sequenceNbr := port.fifo.ComPeek();
    if port.tunnel.Some? {
      if !tokenSent {
        port.fifo.ComCancelRead(sequenceNbr);
      }
    } else if port.peerPort.Some? {
      var ok := port.peerPort.value.fifo.Write(token.value, token.size);
      if ok {
        port.fifo.CommitRead(false);
      } else {
        port.fifo.CancelCommit();
      }
    } else {
      port.fifo.ComCancelRead(sequenceNbr);
    }
  }

  // ---------------------------------------------------------------------
  // The node's ports

  /** The part of `node_t` ports work on: the actor list and the tunnel table, which holds the link table. */
  class Node {
    var actors: seq<Actor>
    const tunnels: TunnelTable

    constructor (tunnels: TunnelTable)
      ensures this.tunnels == tunnels && actors == []
    {
      this.tunnels := tunnels;
      actors := [];
    }

    /** `port_get`. */
    method PortGet(id: string, n: nat) returns (r: Option<Port>)
      ensures r == FindPort(actors, id, n)
    {
      var list := actors;
      ghost var lists := ListsOf(list);
      var i := 0;
      while i < |list|
        invariant 0 <= i <= |list|
        invariant FindIn(lists, id, n) == FindIn(lists[i..], id, n)
      {
        var a := list[i];
        assert lists[i..][0] == lists[i] && lists[i..][1..] == lists[i + 1..];
        var k := FirstPortWithId(a.inPorts, id, n);
        if k.Some? {
          return Some(a.inPorts[k.value]);
        }
        k := FirstPortWithId(a.outPorts, id, n);
        if k.Some? {
          return Some(a.outPorts[k.value]);
        }
        i := i + 1;
      }
      return None;
    }

    /** `tunnel_remove_ref` on the port's tunnel, if any, then `port->tunnel = NULL`. */
    method DropTunnel(port: Port)
      modifies port`tunnel, tunnels`tunnels, tunnels.links`links
      modifies TunnelOf(Some(port))`refCount, LinksOf(TunnelOf(Some(port)))`refCount
      ensures port.tunnel.None?
      ensures old(port.tunnel).None? ==> tunnels.tunnels == old(tunnels.tunnels) && tunnels.links.links == old(tunnels.links.links)
      ensures old(port.tunnel).Some? ==>
        var t := old(port.tunnel).value;
        t.refCount == Dec8(old(t.refCount))
        && tunnels.tunnels == if t.refCount == 0 then UnlistedTunnel(old(tunnels.tunnels), t.id) else old(tunnels.tunnels)
      ensures forall t | t in tunnels.tunnels :: t in old(tunnels.tunnels)
      ensures forall l | l in tunnels.links.links :: l in old(tunnels.links.links)
    {
      var _ := tunnels.RemoveRef(port.tunnel);
      port.tunnel := None;
    }

    /** `port->tunnel = tunnel_get_from_id(...)`, and `tunnel_add_ref` on what it found. */
    method AttachById(port: Port, tunnelId: string, tn: nat)
      modifies port`tunnel, AsSet(TunnelWithId(tunnels.tunnels, tunnelId, tn))`refCount
      ensures port.tunnel == TunnelWithId(tunnels.tunnels, tunnelId, tn)
      ensures port.tunnel.Some? ==> var t := port.tunnel.value; t.refCount == Inc8(old(t.refCount))
    {
      var found := tunnels.GetFromId(tunnelId, tn);
      port.tunnel := found;
      AddTunnelRef(found);
    }

    /**
     * The tunnel swap of `port_handle_connect`: the port's tunnel, if any,
     * loses a reference, and the port takes the tunnel with the given id,
     * which gains one.
     */
    method Rebind(port: Port, tunnelId: string, tn: nat)
      requires !(port.tunnel.Some? && StrNEq(port.tunnel.value.id, tunnelId, tn))
      modifies port`tunnel, tunnels`tunnels, tunnels.links`links
      modifies TunnelOf(Some(port))`refCount, LinksOf(TunnelOf(Some(port)))`refCount, (set t | t in tunnels.tunnels)`refCount
      ensures old(port.tunnel).Some? ==> old(port.tunnel).value.refCount == Dec8(old(port.tunnel.value.refCount))
      ensures port.tunnel == TunnelWithId(tunnels.tunnels, tunnelId, tn)
      ensures port.tunnel.Some? ==> port.tunnel.value in old(tunnels.tunnels)
      ensures port.tunnel.Some? ==> var t := port.tunnel.value; t.refCount == Inc8(old(t.refCount))
    {
      ghost var held := port.tunnel;
      DropTunnel(port);
      ghost var dropped := if held.Some? then held.value.refCount else 0;
      AttachById(port, tunnelId, tn);
      assert held.Some? ==> port.tunnel != held && held.value.refCount == dropped;
    }

    /**
     * What `port_handle_connect` does to a port on another tunnel or none:
     * the held tunnel, if any, loses a reference and the port takes the
     * first tunnel with the given id. None found fails, leaving the port
     * without a tunnel and its state as it was; one found gains a reference
     * and the port is ENABLED, its actor re-deriving its state from its
     * ports.
     */
    twostate predicate Switched(port: Port, held: Option<Tunnel>, tunnelId: string, tn: nat, r: CcResult)
      reads this, tunnels, port, port.actor, port.actor.inPorts, port.actor.outPorts, AsSet(held), set t | t in tunnels.tunnels
    {
      (held.Some? ==> held.value.refCount == Dec8(old(held.value.refCount)))
      && port.tunnel == (TunnelWithId(tunnels.tunnels, tunnelId, tn))
      && (port.tunnel.None? ==> r == Fail && port.state == old(port.state) && port.actor.state == old(port.actor.state))
      && (port.tunnel.Some? ==> r == Success && port.state == PortEnabled && port.actor.Settled() && port.tunnel.value in old(tunnels.tunnels))
      && (port.tunnel.Some? ==> var t := port.tunnel.value; t.refCount == Inc8(old(t.refCount)))
    }

    /**
     * What `port_handle_connect` does to a port that held `held`. A port
     * already on a tunnel with the given id is ENABLED with no change of
     * reference counts, and its actor re-derives its state; any other port
     * switches tunnels.
     */
    twostate predicate Connected(port: Port, held: Option<Tunnel>, tunnelId: string, tn: nat, r: CcResult)
      reads this, tunnels, port, port.actor, port.actor.inPorts, port.actor.outPorts, AsSet(held), set t | t in tunnels.tunnels
    {
      if held.Some? && StrNEq(old(held.value.id), tunnelId, tn) then
        r == Success && port.tunnel == held && port.state == PortEnabled && port.actor.Settled()
        && tunnels.tunnels == old(tunnels.tunnels) && held.value.refCount == old(held.value.refCount)
      else
        Switched(port, held, tunnelId, tn, r)
    }

    /** The tunnel switch of `port_handle_connect`, for a port not already on a tunnel with the given id. */
    method SwitchTunnel(port: Port, tunnelId: string, tn: nat) returns (r: CcResult)
      requires !(port.tunnel.Some? && StrNEq(port.tunnel.value.id, tunnelId, tn))
      modifies port`state, port`tunnel, port.actor`state, tunnels`tunnels, tunnels.links`links
      modifies TunnelOf(Some(port))`refCount, LinksOf(TunnelOf(Some(port)))`refCount, (set t | t in tunnels.tunnels)`refCount
      ensures Switched(port, old(port.tunnel), tunnelId, tn, r)
    {
      Rebind(port, tunnelId, tn);
      if port.tunnel.None? {
        return Fail;
      }
      Enable(port);
      r := Success;
    }

    /** `port_set_state(port, PORT_ENABLED)`, after which the port's actor re-derives its state from its ports. */
    static method Enable(port: Port)
      modifies port`state, port.actor`state
      ensures port.state == PortEnabled && port.actor.Settled()
    {
      port.state := PortEnabled;
      port.actor.PortStateChanged();
    }

    /** The part of `port_handle_connect` after the port is found. */
    method AcceptConnect(port: Port, tunnelId: string, tn: nat) returns (r: CcResult)
      modifies port`state, port`tunnel, port.actor`state, tunnels`tunnels, tunnels.links`links
      modifies TunnelOf(Some(port))`refCount, LinksOf(TunnelOf(Some(port)))`refCount, (set t | t in tunnels.tunnels)`refCount
      ensures Connected(port, old(port.tunnel), tunnelId, tn, r)
    {
      if port.tunnel.Some? && StrNEq(port.tunnel.value.id, tunnelId, tn) {
        Enable(port);
        return Success;
      }
      r := SwitchTunnel(port, tunnelId, tn);
    }

    /**
     * `port_handle_connect`: a peer runtime connected the port with id
     * `portId` (its first `n` characters) through the tunnel `tunnelId`.
     * No such port fails with no change.
     */
    method HandleConnect(portId: string, n: nat, tunnelId: string, tn: nat) returns (r: CcResult)
      modifies AsSet(FindPort(actors, portId, n))`state, AsSet(FindPort(actors, portId, n))`tunnel
      modifies ActorsOf(AsSet(FindPort(actors, portId, n)))`state, tunnels`tunnels, tunnels.links`links
      modifies TunnelOf(FindPort(actors, portId, n))`refCount, LinksOf(TunnelOf(FindPort(actors, portId, n)))`refCount
      modifies (set t | t in tunnels.tunnels)`refCount
      ensures old(FindPort(actors, portId, n)).None? ==> r == Fail && tunnels.tunnels == old(tunnels.tunnels)
      ensures old(FindPort(actors, portId, n)).Some? ==>
        var port := old(FindPort(actors, portId, n)).value;
        Connected(port, old(port.tunnel), tunnelId, tn, r)
    {
      var port := FindPort(actors, portId, n);
      if port.None? {
        return Fail;
      }
      assert port.value.actor in ActorsOf(AsSet(port));
      r := AcceptConnect(port.value, tunnelId, tn);
    }

    /**
     * What `port_handle_disconnect` does to a port that held `held`: its
     * peeks are cancelled with its tokens kept, it is DISCONNECTED, its
     * actor PENDING, and it no longer holds a tunnel; the held tunnel, if
     * any, loses a reference.
     */
    twostate predicate DisconnectedByPeer(port: Port, held: Option<Tunnel>)
      requires old(port.fifo.Valid())
      reads this, tunnels, port, port.actor, port.fifo, port.fifo.tokens, AsSet(held)
    {
      port.state == PortDisconnected && port.actor.state == ActorPending && port.tunnel.None?
      && port.fifo.Valid() && port.fifo.Contents() == old(port.fifo.Contents()) && port.fifo.Peeked() == 0
      && (held.Some? ==> held.value.refCount == Dec8(old(held.value.refCount)))
      && (held.None? ==> tunnels.tunnels == old(tunnels.tunnels))
    }

    /** The part of `port_handle_disconnect` after the port is found. */
    method AcceptDisconnect(port: Port)
      requires port.fifo.Valid()
      modifies port`state, port`tunnel, port.actor`state, port.fifo`tentativeReadPos, tunnels`tunnels, tunnels.links`links
      modifies TunnelOf(Some(port))`refCount, LinksOf(TunnelOf(Some(port)))`refCount
      ensures DisconnectedByPeer(port, old(port.tunnel))
    {
      port.fifo.Cancel();
      port.state := PortDisconnected;
      port.actor.PortDisconnected();
      DropTunnel(port);
    }

    /**
     * `port_handle_disconnect`: a peer runtime disconnected the port with id
     * `portId` (its first `n` characters). No such port fails with no
     * change.
     */
    method HandleDisconnect(portId: string, n: nat) returns (r: CcResult)
      requires FindPort(actors, portId, n).Some? ==> FindPort(actors, portId, n).value.fifo.Valid()
      modifies AsSet(FindPort(actors, portId, n))`state, AsSet(FindPort(actors, portId, n))`tunnel
      modifies ActorsOf(AsSet(FindPort(actors, portId, n)))`state, FifosOf(AsSet(FindPort(actors, portId, n)))`tentativeReadPos
      modifies tunnels`tunnels, tunnels.links`links
      modifies TunnelOf(FindPort(actors, portId, n))`refCount, LinksOf(TunnelOf(FindPort(actors, portId, n)))`refCount
      ensures old(FindPort(actors, portId, n)).None? ==> r == Fail && tunnels.tunnels == old(tunnels.tunnels)
      ensures old(FindPort(actors, portId, n)).Some? ==>
        var port := old(FindPort(actors, portId, n)).value;
        r == Success && DisconnectedByPeer(port, old(port.tunnel))
    {
      var port := FindPort(actors, portId, n);
      if port.None? {
        return Fail;
      }
      assert port.value.actor in ActorsOf(AsSet(port)) && port.value.fifo in FifosOf(AsSet(port));
      AcceptDisconnect(port.value);
      r := Success;
    }

    /**
     * `port_disconnect`: the port's tunnel, if any, loses the port's
     * reference (after a disconnect request whose outcome is only logged);
     * the port forgets its local peer, is DISCONNECTED, and its peeks are
     * cancelled with its tokens kept.
     */
    method Disconnect(port: Port)
      requires port.fifo.Valid()
      modifies port`tunnel, port`peerPort, port`state, port.fifo`tentativeReadPos, tunnels`tunnels, tunnels.links`links
      modifies TunnelOf(Some(port))`refCount, LinksOf(TunnelOf(Some(port)))`refCount
      ensures port.tunnel.None? && port.peerPort.None? && port.state == PortDisconnected
      ensures port.fifo.Valid() && port.fifo.Contents() == old(port.fifo.Contents()) && port.fifo.Peeked() == 0
      ensures old(port.tunnel).Some? ==> var t := old(port.tunnel).value; t.refCount == Dec8(old(t.refCount))
      ensures old(port.tunnel).None? ==> tunnels.tunnels == old(tunnels.tunnels)
    {
      DropTunnel(port);
      port.peerPort := None;
      port.state := PortDisconnected;
      port.fifo.Cancel();
    }

    /** The port `port_get` finds under the port's peer port id: its peer when that peer lives on this node. */
    function LocalPeer(port: Port): Option<Port>
      reads this, port, (set a | a in actors)`inPorts, (set a | a in actors)`outPorts
    {
      FindPort(actors, port.peerPortId, |port.peerPortId|)
    }

    /**
     * The start of `port_setup_connection`. A port without a tunnel is left
     * as it is. A port whose tunnel is PENDING keeps it; one whose tunnel is
     * ENABLED keeps it if the port connect went out, and is then PENDING.
     * Any other port drops its tunnel and is DISCONNECTED.
     */
    method KeepOrDrop(port: Port, connectSent: bool) returns (kept: bool)
      modifies port`state, port`tunnel, tunnels`tunnels, tunnels.links`links
      modifies TunnelOf(Some(port))`refCount, LinksOf(TunnelOf(Some(port)))`refCount
      ensures kept <==> old(port.tunnel).Some? && KeepsTunnel(old(port.tunnel.value.state), connectSent)
      ensures kept ==>
        port.tunnel == old(port.tunnel) && tunnels.tunnels == old(tunnels.tunnels)
        && port.state == (if old(port.tunnel.value.state) == Pending then old(port.state) else PortPending)
      ensures !kept ==> port.tunnel.None? && port.state == (if old(port.tunnel).Some? then PortDisconnected else old(port.state))
      ensures !kept && old(port.tunnel).Some? ==> var t := old(port.tunnel).value; t.refCount == Dec8(old(t.refCount))
      ensures old(port.tunnel).None? ==> tunnels.tunnels == old(tunnels.tunnels)
      ensures forall t | t in tunnels.tunnels :: t in old(tunnels.tunnels)
      ensures forall l | l in tunnels.links.links :: l in old(tunnels.links.links)
    {
      if port.tunnel.None? {
        return false;
      }
      var state := port.tunnel.value.state;
      if state == Pending {
        return true;
      }
      if state == Enabled && connectSent {
        port.state := PortPending;
        return true;
      }
      DropTunnel(port);
      port.state := PortDisconnected;
      return false;
    }

    /**
     * The local branch of `port_setup_connection`: the peer drops its
     * tunnel, if any, and the two ports point at each other, both ENABLED
     * and without a tunnel. The actors' states are not re-derived.
     */
    method ConnectLocal(port: Port, peer: Port)
      modifies port`peerPort, port`state, port`tunnel, peer`peerPort, peer`state, peer`tunnel, tunnels`tunnels, tunnels.links`links
      modifies TunnelOf(Some(peer))`refCount, LinksOf(TunnelOf(Some(peer)))`refCount
      ensures port.peerPort == Some(peer) && peer.peerPort == Some(port)
      ensures port.state == PortEnabled && peer.state == PortEnabled && port.tunnel.None? && peer.tunnel.None?
      ensures old(peer.tunnel).Some? ==> var t := old(peer.tunnel).value; t.refCount == Dec8(old(t.refCount))
      ensures old(peer.tunnel).None? ==> tunnels.tunnels == old(tunnels.tunnels)
    {
      DropTunnel(peer);
      port.peerPort := Some(peer);
      port.state := PortEnabled;
      port.tunnel := None;
      peer.peerPort := Some(port);
      peer.state := PortEnabled;
    }

    /**
     * The remote branch of `port_setup_connection`: the port takes the
     * token tunnel to the peer runtime, or a new one, created DISCONNECTED
     * and so requesting the peer's tunnel. When there is none and the
     * request did not go out it fails, with no tunnel and its state as it
     * was; otherwise the tunnel gains a reference and the port is PENDING.
     */
    method AttachTunnel(port: Port, peer: PeerRequest) returns (r: CcResult)
      requires |peer.rand| == 36
      modifies port`tunnel, port`state, tunnels`tunnels, tunnels.links`links
      modifies (set l | l in tunnels.links.links)`refCount, (set t | t in tunnels.tunnels)`refCount
      ensures r == Success <==> port.tunnel.Some?
      ensures r == Fail <==> FirstOfPeer(old(tunnels.tunnels), peer.peerId, peer.n, TokenTunnel).None? && !peer.sent
      ensures r == Fail ==> port.state == old(port.state) && tunnels.tunnels == old(tunnels.tunnels)
      ensures r == Success ==>
        var t := port.tunnel.value;
        port.state == PortPending && t in tunnels.tunnels && t.kind == TokenTunnel && StrNEq(t.link.peerId, peer.peerId, peer.n)
      ensures r == Success && port.tunnel.value in old(tunnels.tunnels) ==>
        var t := port.tunnel.value; t.refCount == Inc8(old(t.refCount))
      ensures r == Success && port.tunnel.value !in old(tunnels.tunnels) ==> port.tunnel.value.refCount == 1
    {
      var found := tunnels.GetFromPeerIdAndType(peer.peerId, peer.n, TokenTunnel);
      if found.None? {
        found := tunnels.Create(TokenTunnel, Disconnected, peer.peerId, peer.n, None, 0, peer.proxyPeerId, peer.rand, peer.sent);
        if found.None? {
          port.tunnel := None;
          return Fail;
        }
      }
      port.tunnel := found;
      port.state := PortPending;
      AddTunnelRef(found);
      r := Success;
    }

    /**
     * The outcome of `port_setup_connection` on `port`, `local` being the
     * port it would find as its local peer. A tunnel the port keeps ends the
     * setup with success. Otherwise, having dropped its tunnel, the port
     * connects to a local peer; failing that, to the peer runtime, when one
     * is given; failing that, a DISCONNECTED port whose peer lookup went out
     * is PENDING. Anything else fails.
     */
    twostate predicate SetUp(port: Port, local: Option<Port>, peer: Option<PeerRequest>, connectSent: bool, getPortSent: bool, r: CcResult)
      reads this, tunnels, port, AsSet(local)
    {
      var held := old(port.tunnel);
      var dropped := if held.Some? then PortDisconnected else old(port.state);
      if held.Some? && KeepsTunnel(old(held.value.state), connectSent) then
        r == Success && port.tunnel == held && port.peerPort == old(port.peerPort) && tunnels.tunnels == old(tunnels.tunnels)
        && port.state == (if old(held.value.state) == Pending then old(port.state) else PortPending)
      else if local.Some? then
        r == Success && port.peerPort == local && local.value.peerPort == Some(port)
        && port.state == PortEnabled && local.value.state == PortEnabled && port.tunnel.None? && local.value.tunnel.None?
      else if peer.Some? then
        port.peerPort == old(port.peerPort) && (r == Success <==> port.tunnel.Some?)
        && (r == Success ==>
              port.state == PortPending && port.tunnel.value in tunnels.tunnels && port.tunnel.value.kind == TokenTunnel
              && StrNEq(port.tunnel.value.link.peerId, peer.value.peerId, peer.value.n))
        && (r == Fail ==> !peer.value.sent && port.state == dropped)
      else
        port.peerPort == old(port.peerPort) && port.tunnel.None?
        && (r == Success <==> dropped == PortDisconnected && getPortSent)
        && port.state == (if r == Success then PortPending else dropped)
    }

    /** `port_setup_connection`: whether the port connect and the peer lookup went out are parameters. */
    method SetupConnection(port: Port, peer: Option<PeerRequest>, connectSent: bool, getPortSent: bool) returns (r: CcResult)
      requires peer.Some? ==> |peer.value.rand| == 36
      modifies port`state, port`tunnel, port`peerPort, tunnels`tunnels, tunnels.links`links
      modifies TunnelOf(Some(port))`refCount, LinksOf(TunnelOf(Some(port)))`refCount
      modifies AsSet(LocalPeer(port))`state, AsSet(LocalPeer(port))`tunnel, AsSet(LocalPeer(port))`peerPort
      modifies TunnelOf(LocalPeer(port))`refCount, LinksOf(TunnelOf(LocalPeer(port)))`refCount
      modifies (set l | l in tunnels.links.links)`refCount, (set t | t in tunnels.tunnels)`refCount
      ensures SetUp(port, old(LocalPeer(port)), peer, connectSent, getPortSent, r)
    {
      ghost var local := LocalPeer(port);
      var kept := KeepOrDrop(port, connectSent);
      if kept {
        return Success;
      }
      var found := FindPort(actors, port.peerPortId, |port.peerPortId|);
      assert found == local;
      if found.Some? {
        assert found.value == port || found.value.tunnel == old(found.value.tunnel);
        ConnectLocal(port, found.value);
        return Success;
      }
      if peer.Some? {
        r := AttachTunnel(port, peer.value);
        return;
      }
      if port.state == PortDisconnected && getPortSent {
        port.state := PortPending;
        return Success;
      }
      return Fail;
    }

    /**
     * `port_transmit`, once per scheduler round. An ENABLED out-port of an
     * ENABLED actor with a token waiting moves that token; any other ENABLED
     * port does nothing. A port that is not ENABLED sets up its connection
     * instead, with no peer runtime given; `setup` is the result of that
     * setup, which the runtime ignores. Whether the port connect, the peer
     * lookup and the token went out are parameters.
     */
    method Transmit(port: Port, connectSent: bool, getPortSent: bool, tokenSent: bool) returns (setup: Option<CcResult>)
      requires port.fifo.Valid() && PeerApart(port)
      modifies port.fifo`tentativeReadPos, port.fifo`readPos, port.fifo`released, port.fifo.tokens
      modifies PeerFifos(port)`writePos, PeerSlots(port)
      modifies port`state, port`tunnel, port`peerPort, tunnels`tunnels, tunnels.links`links
      modifies TunnelOf(Some(port))`refCount, LinksOf(TunnelOf(Some(port)))`refCount
      modifies AsSet(LocalPeer(port))`state, AsSet(LocalPeer(port))`tunnel, AsSet(LocalPeer(port))`peerPort
      modifies TunnelOf(LocalPeer(port))`refCount, LinksOf(TunnelOf(LocalPeer(port)))`refCount
      modifies (set l | l in tunnels.links.links)`refCount, (set t | t in tunnels.tunnels)`refCount
      ensures old(port.state) != PortEnabled ==>
        setup.Some? && SetUp(port, old(LocalPeer(port)), None, connectSent, getPortSent, setup.value)
      ensures old(port.state) == PortEnabled ==> setup.None? && port.state == PortEnabled
      ensures old(port.state) == PortEnabled && old(CanMove(port)) ==> Moved(port, tokenSent)
      ensures !(old(port.state) == PortEnabled && old(CanMove(port))) ==>
        port.fifo.Valid() && port.fifo.Contents() == old(port.fifo.Contents()) && port.fifo.Peeked() == old(port.fifo.Peeked())
    {
      if port.state != PortEnabled {
        var r := SetupConnection(port, None, connectSent, getPortSent);
        return Some(r);
      }
      if port.actor.state == ActorEnabled && port.direction == Out && port.fifo.TokensAvailable(1) {
        MoveToken(port, tokenSent);
      }
      return None;
    }
  }
}
