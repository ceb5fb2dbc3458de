/**
 * Actors and their ports as the C runtime keeps them (runtime/north/cc_actor.c,
 * with the port record of runtime/north/cc_port.h). An actor's state follows
 * its ports: it may fire only while every port is connected. Calls the actor
 * code makes into the port layer (`cc_port_connect`, the three-argument
 * `cc_port_disconnect`) and into the actor type's own code are returned as
 * the sequence of calls made, since their bodies are not part of this model.
 */
module CcActor {
  import opened Wrappers
  import opened Text
  import opened CcToken
  import opened CcCommon
  import opened CcFifo
  import opened CcTunnel
  import opened ManagedAttributes

  /** `cc_actor_state_t`, with the two states the .c file uses beyond the header's. */
  datatype ActorState = ActorPending | ActorEnabled | ActorPendingImpl | ActorDoDelete
  /** `cc_port_state_t`, with the DO_DELETE state the .c file uses beyond the header's. */
  datatype PortState = PortDisconnected | PortEnabled | PortPending | PortDoDelete
  datatype Direction = In | Out

  /** The function pointers a registered actor type supplies, named by the type; `willMigrate` says the hook is set. */
  datatype ActorFunctions = ActorFunctions(typeName: string, willMigrate: bool)

  class Port {
    const id: string
    const name: string
    var peerPortId: string
    const direction: Direction
    var peerPort: Option<Port>
    var tunnel: Option<Tunnel>
    var state: PortState
    const fifo: Fifo
    const actor: Actor

    constructor (id: string, name: string, peerPortId: string, direction: Direction, fifo: Fifo, actor: Actor)
      ensures this.id == id && this.name == name && this.peerPortId == peerPortId && this.direction == direction
      ensures this.fifo == fifo && this.actor == actor
      ensures peerPort == None && tunnel == None && state == PortDisconnected
    {
      this.id := id;
      this.name := name;
      this.peerPortId := peerPortId;
      this.direction := direction;
      this.fifo := fifo;
      this.actor := actor;
      peerPort := None;
      tunnel := None;
      state := PortDisconnected;
    }
  }

  /** A call the actor code makes outside this module. */
  datatype ActorCall =
    | ConnectPort(port: Port)
    | DisconnectPort(port: Port, unrefTunnel: bool)
    | WillMigrate
    | SendActorNew(to: string)

  class Actor {
    var id: string
    var name: string
    const actorType: string
    var state: ActorState
    var inPorts: seq<Port>
    var outPorts: seq<Port>
    var functions: Option<ActorFunctions>

    constructor (actorType: string, state: ActorState, functions: Option<ActorFunctions>)
      ensures this.actorType == actorType && this.state == state && this.functions == functions
      ensures id == "" && name == "" && inPorts == [] && outPorts == []
    {
      this.actorType := actorType;
      this.state := state;
      this.functions := functions;
      id := "";
      name := "";
      inPorts := [];
      outPorts := [];
    }

    /** The actor's state is the one its ports' states give, in-ports first. */
    predicate Settled()
      reads this, (set p | p in inPorts + outPorts)`state
    {
      state == StateFromPorts(PortStates(inPorts + outPorts))
    }

    /** `cc_actor_set_state`: the state is assigned and nothing else changes. */
    method SetState(s: ActorState)
      modifies this`state
      ensures state == s
    {
      state := s;
    }

    /**
     * `cc_actor_connect_ports`: every in-port, then every out-port, that is
     * not ENABLED is connected; the actor ends ENABLED when there was none
     * and PENDING otherwise.
     */
    method ConnectPorts() returns (calls: seq<ActorCall>)
      modifies this`state
      ensures calls == Connects(NotEnabled(inPorts + outPorts))
      ensures state == (if calls == [] then ActorEnabled else ActorPending)
    {
      var s := ActorEnabled;
      calls := [];
      var ports := inPorts + outPorts;
      var i := 0;
      while i < |ports|
        invariant 0 <= i <= |ports|
        invariant calls == Connects(NotEnabled(ports[..i]))
        invariant s == (if calls == [] then ActorEnabled else ActorPending)
      {
        var p := ports[i];
        NotEnabledAppend(ports[..i], p);
        ConnectsAppend(NotEnabled(ports[..i]), p);
        assert ports[..i + 1] == ports[..i] + [p];
        if p.state != PortEnabled {
          calls := calls + [ConnectPort(p)];
          s := ActorPending;
        }
        i := i + 1;
      }
      assert ports[..i] == ports;
      state := s;
    }

    /**
     * `cc_actor_port_state_changed`: scanning the in-ports, then the
     * out-ports, the first port that is not ENABLED decides: DO_DELETE makes
     * the actor DO_DELETE, any other state PENDING. With every port ENABLED
     * the actor is ENABLED.
     */
    method PortStateChanged()
      modifies this`state
      ensures Settled()
    {
      var s := ScanPorts(inPorts);
      if s == ActorEnabled {
        s := ScanPorts(outPorts);
      }
      PortStatesConcat(inPorts, outPorts);
      StateFromConcat(PortStates(inPorts), PortStates(outPorts));
      state := s;
    }

    /** `cc_actor_port_disconnected`: the actor becomes PENDING. */
    method PortDisconnected()
      modifies this`state
      ensures state == ActorPending
    {
      state := ActorPending;
    }

    /** `cc_actor_disconnect`: every in-port, then every out-port, is disconnected, and the actor becomes PENDING. */
    method Disconnect(unrefTunnel: bool) returns (calls: seq<ActorCall>)
      modifies this`state
      ensures calls == Disconnects(inPorts + outPorts, unrefTunnel)
      ensures state == ActorPending
    {
      calls := DisconnectAll(inPorts + outPorts, unrefTunnel);
      state := ActorPending;
    }

    /**
     * `cc_actor_migrate`: the type's `will_migrate` hook runs first when it is
     * set, then every in-port and out-port is disconnected releasing its
     * tunnel, and finally ACTOR_NEW is sent to the target runtime; the result
     * is that send's, given as `sent`.
     */
    method Migrate(to: string, sent: CcResult) returns (r: CcResult, calls: seq<ActorCall>)
      ensures r == sent
      ensures calls == Hook(functions) + Disconnects(inPorts + outPorts, true) + [SendActorNew(to)]
    {
      calls := Hook(functions);
      var disconnects := DisconnectAll(inPorts + outPorts, true);
      calls := calls + disconnects + [SendActorNew(to)];
      r := sent;
    }

    /**
     * `cc_actor_get_attributes` over the decoded entries of a managed map,
     * appending to `list`: see `Extract`. `_id` and `_name` entries are copied
     * into the actor.
     */
    method GetAttributes(entries: seq<ManagedEntry>, privateOnly: bool, list: seq<Item<Value>>)
      returns (r: CcResult, attributes: Option<seq<Item<Value>>>)
      modifies this`id, this`name
      ensures Extraction(r, id, name, attributes) == Extract(entries, privateOnly, old(id), old(name), list)
    {
      var acc := list;
      var i := 0;
      while i < |entries|
        invariant 0 <= i <= |entries|
        invariant Extract(entries, privateOnly, old(id), old(name), list) == Extract(entries[i..], privateOnly, id, name, acc)
      {
        assert entries[i..][1..] == entries[i + 1..];
        var e := entries[i];
        if e.key.None? {
          return Fail, Some(acc);
        }
        var key := e.key.value;
        if !Skipped(key, privateOnly) {
          IdNameExclusive(key);
          if IsIdKey(key) {
            if !e.value.Str? {
              return Fail, None;
            }
            id := e.value.s;
          }
          if IsNameKey(key) {
            if !e.value.Str? {
              return Fail, None;
            }
            name := e.value.s;
          }
          acc := acc + [Entry(key, e.value)];
        }
        i := i + 1;
      }
      r, attributes := Success, Some(acc);
    }
  }

  /** The state of each port, in order. */
  function PortStates(ports: seq<Port>): (r: seq<PortState>)
    reads (set p | p in ports)`state
    ensures |r| == |ports| && forall i | 0 <= i < |ports| :: r[i] == ports[i].state
  {
    if |ports| == 0 then [] else [ports[0].state] + PortStates(ports[1..])
  }

  /** The states of two lists of ports, one after the other. */
  lemma PortStatesConcat(a: seq<Port>, b: seq<Port>)
    ensures PortStates(a + b) == PortStates(a) + PortStates(b)
  {
    var r, e := PortStates(a + b), PortStates(a) + PortStates(b);
    forall i | 0 <= i < |r|
      ensures r[i] == e[i]
    {
      if i < |a| {
        assert (a + b)[i] == a[i];
      } else {
        assert (a + b)[i] == b[i - |a|];
      }
    }
  }

  predicate AllEnabled(states: seq<PortState>)
  {
    forall i | 0 <= i < |states| :: states[i] == PortEnabled
  }

  /** The actor state the first port that is not ENABLED dictates; ENABLED when there is none. */
  function StateFromPorts(states: seq<PortState>): (r: ActorState)
    ensures r != ActorPendingImpl
  {
    if |states| == 0 then ActorEnabled
    else if states[0] == PortDoDelete then ActorDoDelete
    else if states[0] != PortEnabled then ActorPending
    else StateFromPorts(states[1..])
  }

  /** The actor is ENABLED exactly when every port is. */
  lemma {:induction false} StateFromPortsEnabled(states: seq<PortState>)
    ensures StateFromPorts(states) == ActorEnabled <==> AllEnabled(states)
  {
    if |states| > 0 {
      StateFromPortsEnabled(states[1..]);
      assert AllEnabled(states) <==> states[0] == PortEnabled && AllEnabled(states[1..]) by {
        assert forall i | 0 < i < |states| :: states[1..][i - 1] == states[i];
      }
    }
  }

  /** The actor is DO_DELETE exactly when some port is DO_DELETE and every port before it is ENABLED. */
  lemma {:induction false} StateFromPortsDoDelete(states: seq<PortState>)
    ensures StateFromPorts(states) == ActorDoDelete <==>
      exists i | 0 <= i < |states| :: states[i] == PortDoDelete && AllEnabled(states[..i])
  {
    if |states| > 0 {
      StateFromPortsDoDelete(states[1..]);
      if states[0] == PortDoDelete {
        assert AllEnabled(states[..0]);
      } else if states[0] != PortEnabled {
        forall i | 0 < i < |states|
          ensures !AllEnabled(states[..i])
        {
          assert states[..i][0] == states[0];
        }
      } else {
        if StateFromPorts(states) == ActorDoDelete {
          var j :| 0 <= j < |states[1..]| && states[1..][j] == PortDoDelete && AllEnabled(states[1..][..j]);
          assert states[..j + 1] == [states[0]] + states[1..][..j];
          assert states[j + 1] == PortDoDelete && AllEnabled(states[..j + 1]);
        } else {
          forall i | 0 <= i < |states| && states[i] == PortDoDelete
            ensures !AllEnabled(states[..i])
          {
            assert i > 0 && states[1..][i - 1] == PortDoDelete;
            assert !AllEnabled(states[1..][..i - 1]);
            var k :| 0 <= k < i - 1 && states[1..][..i - 1][k] != PortEnabled;
            assert states[..i][k + 1] != PortEnabled;
          }
        }
      }
    }
  }

  /** One step of the scan: the first state decides unless it is ENABLED. */
  lemma StateFromFirst(states: seq<PortState>)
    requires |states| > 0
    ensures StateFromPorts(states) ==
      if states[0] == PortDoDelete then ActorDoDelete
      else if states[0] != PortEnabled then ActorPending
      else StateFromPorts(states[1..])
  {
  }

  /**
   * One loop of `cc_actor_port_state_changed`: the ports are visited in
   * order while the result is still ENABLED, and the first port that is not
   * ENABLED decides.
   */
  method ScanPorts(ports: seq<Port>) returns (s: ActorState)
    ensures s == StateFromPorts(PortStates(ports))
  {
    ghost var states := PortStates(ports);
    s := ActorEnabled;
    var i := 0;
    while i < |ports| && s == ActorEnabled
      invariant 0 <= i <= |ports|
      invariant StateFromPorts(states) == if s == ActorEnabled then StateFromPorts(states[i..]) else s
    {
      assert states[i..][1..] == states[i + 1..];
      assert states[i..][0] == ports[i].state;
      StateFromFirst(states[i..]);
      if ports[i].state == PortDoDelete {
        s := ActorDoDelete;
      } else if ports[i].state != PortEnabled {
        s := ActorPending;
      }
      i := i + 1;
    }
    assert states[|states|..] == [];
  }

  /** Scanning two lists one after the other decides as scanning their concatenation. */
  lemma {:induction false} StateFromConcat(a: seq<PortState>, b: seq<PortState>)
    ensures StateFromPorts(a + b) == if StateFromPorts(a) == ActorEnabled then StateFromPorts(b) else StateFromPorts(a)
  {
    if |a| > 0 {
      assert (a + b)[0] == a[0] && (a + b)[1..] == a[1..] + b;
      StateFromConcat(a[1..], b);
    } else {
      assert a + b == b;
    }
  }

  /** The ports not ENABLED, in order. */
  function NotEnabled(ports: seq<Port>): seq<Port>
    reads ports
  {
    if |ports| == 0 then []
    else if ports[0].state != PortEnabled then [ports[0]] + NotEnabled(ports[1..])
    else NotEnabled(ports[1..])
  }

  /**
   * Connecting ports leaves the actor ENABLED exactly when a port-state
   * change would: when no port needs connecting.
   */
  lemma {:induction false} NotEnabledNone(ports: seq<Port>)
    ensures NotEnabled(ports) == [] <==> StateFromPorts(PortStates(ports)) == ActorEnabled
  {
    if |ports| > 0 {
      NotEnabledNone(ports[1..]);
      assert PortStates(ports) == [ports[0].state] + PortStates(ports[1..]);
      StateFromConcat([ports[0].state], PortStates(ports[1..]));
    }
  }

  lemma {:induction false} NotEnabledAppend(ports: seq<Port>, p: Port)
    ensures NotEnabled(ports + [p]) == NotEnabled(ports) + (if p.state != PortEnabled then [p] else [])
  {
    if |ports| > 0 {
      assert (ports + [p])[1..] == ports[1..] + [p];
      NotEnabledAppend(ports[1..], p);
    } else {
      assert ports + [p] == [p];
    }
  }

  function Connects(ports: seq<Port>): (r: seq<ActorCall>)
    ensures |r| == |ports| && forall i | 0 <= i < |ports| :: r[i] == ConnectPort(ports[i])
  {
    if |ports| == 0 then [] else [ConnectPort(ports[0])] + Connects(ports[1..])
  }

  lemma ConnectsAppend(ports: seq<Port>, p: Port)
    ensures Connects(ports + [p]) == Connects(ports) + [ConnectPort(p)]
  {
  }

  function Disconnects(ports: seq<Port>, unrefTunnel: bool): (r: seq<ActorCall>)
    ensures |r| == |ports| && forall i | 0 <= i < |ports| :: r[i] == DisconnectPort(ports[i], unrefTunnel)
  {
    if |ports| == 0 then [] else [DisconnectPort(ports[0], unrefTunnel)] + Disconnects(ports[1..], unrefTunnel)
  }

  /** The `will_migrate` call, when the type sets the hook. */
  function Hook(functions: Option<ActorFunctions>): seq<ActorCall>
  {
    if functions.Some? && functions.value.willMigrate then [WillMigrate] else []
  }

  /** The loop that disconnects each port of a list in turn. */
  method DisconnectAll(ports: seq<Port>, unrefTunnel: bool) returns (calls: seq<ActorCall>)
    ensures calls == Disconnects(ports, unrefTunnel)
  {
    calls := [];
    for i := 0 to |ports|
      invariant calls == Disconnects(ports[..i], unrefTunnel)
    {
      assert Disconnects(ports[..i + 1], unrefTunnel) == Disconnects(ports[..i], unrefTunnel) + [DisconnectPort(ports[i], unrefTunnel)];
      calls := calls + [DisconnectPort(ports[i], unrefTunnel)];
    }
    assert ports[..|ports|] == ports;
  }

  /** A migration disconnects every port, each exactly once and releasing its tunnel, after the hook and before the send. */
  lemma MigrateOrder(functions: Option<ActorFunctions>, ports: seq<Port>, to: string)
    ensures var calls := Hook(functions) + Disconnects(ports, true) + [SendActorNew(to)];
      calls[|calls| - 1] == SendActorNew(to)
      && (forall i | 0 <= i < |ports| :: calls[|Hook(functions)| + i] == DisconnectPort(ports[i], true))
      && (functions.Some? && functions.value.willMigrate ==> calls[0] == WillMigrate)
      && |calls| == |Hook(functions)| + |ports| + 1
  {
  }

  // ---------------------------------------------------------------------
  // Managed attributes of a serialized actor

  /** One entry of a managed map: its key, None when it does not decode as a string, and its value. */
  datatype ManagedEntry = ManagedEntry(key: Option<string>, value: Value)

  /** What extracting attributes leaves: the result, the actor's id and name, and the list, None once freed. */
  datatype Extraction = Extraction(result: CcResult, id: string, name: string, list: Option<seq<Item<Value>>>)

  /** Keys the extraction passes over: with `privateOnly` those not starting with '_', and always "_shadow_args". */
  predicate Skipped(key: string, privateOnly: bool)
  {
    (privateOnly && (|key| == 0 || key[0] != '_')) || StrNEq(key, "_shadow_args", 12)
  }

  /** `strncmp(key, "_id", 3) == 0`. */
  predicate IsIdKey(key: string)
  {
    StrNEq(key, "_id", 3)
  }

  /** `strncmp(key, "_name", 5) == 0`. */
  predicate IsNameKey(key: string)
  {
    StrNEq(key, "_name", 5)
  }

  /** No key is both an id key and a name key. */
  lemma IdNameExclusive(key: string)
    ensures IsIdKey(key) ==> !IsNameKey(key)
  {
    if IsIdKey(key) {
      assert Prefix(key, 3)[1] == 'i';
      assert Prefix(key, 5)[1] == 'i';
    }
  }

  /**
   * `cc_actor_get_attributes` with the entry appended on success of
   * `cc_list_add_n`: every entry that is not skipped is appended to the
   * list, an "_id" or "_name" entry also becoming the actor's id or name.
   * A key that does not decode stops with failure and leaves the list as
   * it is; an "_id" or "_name" entry that is not a string stops with
   * failure and frees the list.
   */
  function Extract(entries: seq<ManagedEntry>, privateOnly: bool, id: string, name: string, list: seq<Item<Value>>): Extraction
  {
    if |entries| == 0 then Extraction(Success, id, name, Some(list))
    else
      var e := entries[0];
      if e.key.None? then Extraction(Fail, id, name, Some(list))
      else if Skipped(e.key.value, privateOnly) then Extract(entries[1..], privateOnly, id, name, list)
      else if (IsIdKey(e.key.value) || IsNameKey(e.key.value)) && !e.value.Str? then Extraction(Fail, id, name, None)
      else Extract(entries[1..], privateOnly,
                   if IsIdKey(e.key.value) then e.value.s else id,
                   if IsNameKey(e.key.value) then e.value.s else name,
                   list + [Entry(e.key.value, e.value)])
  }

  /** The entries of `l` from index `from` on are all ones the extraction keeps. */
  predicate KeptFrom(l: seq<Item<Value>>, from: nat, privateOnly: bool)
  {
    forall k | from <= k < |l| :: !Skipped(l[k].id, privateOnly)
  }

  /**
   * A successful extraction keeps the list it was given and appends only
   * entries it may keep: never "_shadow_args", and with `privateOnly` only
   * keys starting with '_'.
   */
  lemma {:induction false} ExtractKeeps(entries: seq<ManagedEntry>, privateOnly: bool, id: string, name: string, list: seq<Item<Value>>)
    requires KeptFrom(list, 0, privateOnly)
    ensures var x := Extract(entries, privateOnly, id, name, list);
      x.result == Success ==> x.list.Some? && list <= x.list.value && KeptFrom(x.list.value, 0, privateOnly)
  {
    if |entries| > 0 && entries[0].key.Some? {
      var k := entries[0].key.value;
      var v := entries[0].value;
      if Skipped(k, privateOnly) {
        ExtractKeeps(entries[1..], privateOnly, id, name, list);
      } else if !((IsIdKey(k) || IsNameKey(k)) && !v.Str?) {
        var list' := list + [Entry(k, v)];
        assert KeptFrom(list', 0, privateOnly);
        ExtractKeeps(entries[1..], privateOnly, if IsIdKey(k) then v.s else id, if IsNameKey(k) then v.s else name, list');
      }
    }
  }

  /** A failed extraction frees the list, except when a key does not decode, which returns leaving it allocated. */
  lemma {:induction false} ExtractFailureFrees(entries: seq<ManagedEntry>, privateOnly: bool, id: string, name: string, list: seq<Item<Value>>)
    ensures var x := Extract(entries, privateOnly, id, name, list);
      x.result == Fail && x.list.Some? ==> exists i | 0 <= i < |entries| :: entries[i].key.None?
    ensures Extract(entries, privateOnly, id, name, list).result != PendingResult
  {
    if |entries| > 0 && entries[0].key.Some? {
      var k := entries[0].key.value;
      var v := entries[0].value;
      if Skipped(k, privateOnly) {
        ExtractFailureFrees(entries[1..], privateOnly, id, name, list);
      } else if !((IsIdKey(k) || IsNameKey(k)) && !v.Str?) {
        ExtractFailureFrees(entries[1..], privateOnly, if IsIdKey(k) then v.s else id, if IsNameKey(k) then v.s else name, list + [Entry(k, v)]);
      }
      var x := Extract(entries, privateOnly, id, name, list);
      if x.result == Fail && x.list.Some? {
        var i :| 0 <= i < |entries[1..]| && entries[1..][i].key.None?;
        assert entries[i + 1].key.None?;
      }
    }
  }

  /**
   * `cc_actor_get_attributes` read by the definition of `cc_list_add_n` in
   * cc_common.c rather than its declaration in cc_common.h: the definition
   * returns `CC_SUCCESS`, which is 0, and the code takes a result equal to
   * NULL as failure, so the first entry that is not skipped would fail the
   * extraction and free the list. The declaration and the definition
   * conflict, so which of the two C gives is undefined; `Extract` follows
   * the declaration, as every other call site in the model does.
   */
  function ExtractByDefinition(entries: seq<ManagedEntry>, privateOnly: bool, id: string, name: string, list: seq<Item<Value>>): Extraction
  {
    if |entries| == 0 then Extraction(Success, id, name, Some(list))
    else
      var e := entries[0];
      if e.key.None? then Extraction(Fail, id, name, Some(list))
      else if Skipped(e.key.value, privateOnly) then ExtractByDefinition(entries[1..], privateOnly, id, name, list)
      else if (IsIdKey(e.key.value) || IsNameKey(e.key.value)) && !e.value.Str? then Extraction(Fail, id, name, None)
      else Extraction(Fail, if IsIdKey(e.key.value) then e.value.s else id, if IsNameKey(e.key.value) then e.value.s else name, None)
  }

  /** Read by the definition, an actor whose managed map holds one ordinary entry fails to load, where the declaration's reading keeps the entry. */
  lemma ExtractByDefinitionRejects(id: string, name: string)
    ensures ExtractByDefinition([ManagedEntry(Some("dump"), Bool(true))], false, id, name, []) == Extraction(Fail, id, name, None)
    ensures Extract([ManagedEntry(Some("dump"), Bool(true))], false, id, name, []) == Extraction(Success, id, name, Some([Entry("dump", Bool(true))]))
  {
    assert !StrNEq("dump", "_shadow_args", 12) by { assert Prefix("dump", 12) == "dump"; }
    assert !IsIdKey("dump") by { assert Prefix("dump", 3) == "dum"; }
    assert !IsNameKey("dump") by { assert Prefix("dump", 5) == "dump"; }
    var entries := [ManagedEntry(Some("dump"), Bool(true))];
    assert entries[1..] == [];
    assert [] + [Entry("dump", Bool(true))] == [Entry("dump", Bool(true))];
  }

  // ---------------------------------------------------------------------
  // Creation

  /**
   * `cc_actor_create_from_type`: a new PENDING actor of the type's first
   * `typeLen` characters. A registered type whose name agrees on those
   * characters gives the actor that type's functions. Otherwise, with
   * Python support, a type with a Python module is loaded (`mpyInit` says it
   * loaded) and one without stays PENDING_IMPL while its module is requested
   * (`sent` says the request went out); without either, creation fails.
   */
  method CreateFromType(types: seq<Item<ActorFunctions>>, actorType: string, typeLen: nat,
                        usePython: bool, hasModule: bool, mpyInit: bool, sent: bool) returns (r: Option<Actor>)
    ensures r.Some? ==>
      fresh(r.value) && r.value.actorType == Prefix(actorType, typeLen) && r.value.inPorts == [] && r.value.outPorts == []
    ensures FirstStartingWith(types, actorType, typeLen).Some? ==>
      r.Some? && r.value.state == ActorPending
      && r.value.functions == Some(types[FirstStartingWith(types, actorType, typeLen).value].data)
    ensures FirstStartingWith(types, actorType, typeLen).None? ==>
      (r.Some? <==> usePython && (if hasModule then mpyInit else sent))
      && (r.Some? ==> r.value.functions == None && r.value.state == if hasModule then ActorPending else ActorPendingImpl)
  {
    var found := FindType(types, actorType, typeLen);
    if found.Some? {
      var a := new Actor(Prefix(actorType, typeLen), ActorPending, found);
      return Some(a);
    }
    if usePython {
      if hasModule {
        if mpyInit {
          var a := new Actor(Prefix(actorType, typeLen), ActorPending, None);
          return Some(a);
        }
      } else if sent {
        var a := new Actor(Prefix(actorType, typeLen), ActorPendingImpl, None);
        return Some(a);
      }
    }
    return None;
  }

  /** `cc_list_get_n(node->actor_types, type, type_len)`. */
  method FindType(types: seq<Item<ActorFunctions>>, actorType: string, typeLen: nat) returns (r: Option<ActorFunctions>)
    ensures r.None? <==> FirstStartingWith(types, actorType, typeLen).None?
    ensures r.Some? ==> r.value == types[FirstStartingWith(types, actorType, typeLen).value].data
  {
    var i := 0;
    while i < |types|
      invariant 0 <= i <= |types|
      invariant forall j | 0 <= j < i :: !StrNEq(types[j].id, actorType, typeLen)
    {
      if StrNEq(types[i].id, actorType, typeLen) {
        assert FirstStartingWith(types, actorType, typeLen) == Some(i);
        return Some(types[i].data);
      }
      i := i + 1;
    }
    return None;
  }

  /** The check `cc_actor_create` makes on replication data: an actor whose replication master is itself is refused. */
  function IsOwnMaster(id: string, master: string): (r: bool)
    ensures r <==> master == id
  {
    |master| == |id| && StrNEq(id, master, |id|)
  }
}
