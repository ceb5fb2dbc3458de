/**
 * The first-generation actors (actor.c). An actor is created from one of
 * four built-in types, holds its in-ports and out-ports, and is driven
 * by the node loop through `actor_transmit`: DO_ENABLE and DO_DELETE send
 * one request each, and DO_MIGRATE first disconnects the actor's ports
 * and then asks the registry for a new actor on the target runtime.
 *
 * actor.c uses the ports of port.c (`LegacyPort.Port`) but is out of step
 * with it: it reads a result from `port_transmit`, which returns nothing
 * in port.c, compares port states with a PORT_PENDING that port.c does not
 * have, and calls a `port_delete` that no file defines. Here a port's
 * transmit succeeds when the request it sends is sent (a parameter per
 * port), PORT_PENDING is any state waiting for a reply, and `port_delete`
 * puts the port in DO_DELETE.
 */
module LegacyActor {
  import opened Wrappers
  import opened Text
  import opened CcCommon
  import LegacyPort

  /** The actor states of actor.h. */
  datatype ActorState = DoDelete | DoEnable | DoMigrate | Enabled | Pending

  /** The built-in actor types, in table order. */
  const ActorTypes: seq<string> := ["std.Identity", "io.GPIOReader", "io.GPIOWriter", "sensor.Temperature"]

  /**
   * The table entry `actor_init_from_type` picks: the first type whose
   * first `typeLen` characters agree with those of `t`. Only `typeLen`
   * characters are compared, so a prefix of a type name picks that type.
   */
  function TypeIndex(t: string, typeLen: nat): (r: Option<nat>)
    ensures r.Some? ==> r.value < |ActorTypes| && StrNEq(t, ActorTypes[r.value], typeLen)
    ensures r.Some? ==> forall j | 0 <= j < r.value :: !StrNEq(t, ActorTypes[j], typeLen)
    ensures r.None? ==> forall j | 0 <= j < |ActorTypes| :: !StrNEq(t, ActorTypes[j], typeLen)
  {
    TypeIndexFrom(t, typeLen, 0)
  }

  function TypeIndexFrom(t: string, typeLen: nat, i: nat): (r: Option<nat>)
    requires i <= |ActorTypes|
    ensures r.Some? ==> i <= r.value < |ActorTypes| && StrNEq(t, ActorTypes[r.value], typeLen)
    ensures r.Some? ==> forall j | i <= j < r.value :: !StrNEq(t, ActorTypes[j], typeLen)
    ensures r.None? ==> forall j | i <= j < |ActorTypes| :: !StrNEq(t, ActorTypes[j], typeLen)
    decreases |ActorTypes| - i
  {
    if i == |ActorTypes| then None
    else if StrNEq(t, ActorTypes[i], typeLen) then Some(i)
    else TypeIndexFrom(t, typeLen, i + 1)
  }

  /** Every full type name picks its own entry. */
  lemma TypeNamesResolve(i: nat)
    requires i < |ActorTypes|
    ensures TypeIndex(ActorTypes[i], |ActorTypes[i]|) == Some(i)
  {
    var t := ActorTypes[i];
    if i == 1 {
      assert Prefix(t, 13)[0] != Prefix(ActorTypes[0], 13)[0];
    } else if i == 2 {
      assert Prefix(t, 13)[0] != Prefix(ActorTypes[0], 13)[0];
      assert Prefix(t, 13)[7] != Prefix(ActorTypes[1], 13)[7];
    } else if i == 3 {
      assert Prefix(t, 18)[1] != Prefix(ActorTypes[0], 18)[1];
      assert Prefix(t, 18)[0] != Prefix(ActorTypes[1], 18)[0];
      assert Prefix(t, 18)[0] != Prefix(ActorTypes[2], 18)[0];
    }
  }

  /** Only `typeLen` characters count: a bare prefix of a type name picks that type. */
  lemma PrefixPicksType()
    ensures TypeIndex("io.GPIO", 7) == Some(1)
  {
    assert Prefix("io.GPIO", 7)[0] != Prefix(ActorTypes[0], 7)[0];
    assert Prefix(ActorTypes[1], 7) == "io.GPIO";
  }

  // ---------------------------------------------------------------------
  // Managed attributes

  /** The name `actor_get_managed` leaves out: one beginning with "_shadow_args". */
  predicate IsShadowArgs(name: string)
  {
    Prefix(name, 12) == "_shadow_args"
  }

  /** What `actor_get_managed` ends with once the "_managed" array is found. */
  datatype Managed<V> =
    | Listed(items: seq<(string, V)>)   // SUCCESS
    | Missing(items: seq<(string, V)>)  // FAIL on a name the state lacks; the list built so far is kept
    | Undecodable                       // FAIL on a name that is not a string; the list is freed

  /**
   * The loop of `actor_get_managed` from name `i` on, `acc` being the list
   * so far: each name is looked up in the actor state and its value
   * appended, "_shadow_args" being skipped.
   */
  function ManagedFrom<V>(state: map<string, V>, names: seq<Option<string>>, i: nat, acc: seq<(string, V)>): Managed<V>
    requires i <= |names|
    decreases |names| - i
  {
    if i == |names| then Listed(acc)
    else match names[i]
      case None => Undecodable
      case Some(n) =>
        if IsShadowArgs(n) then ManagedFrom(state, names, i + 1, acc)
        else if n !in state then Missing(acc)
        else ManagedFrom(state, names, i + 1, acc + [(n, state[n])])
  }

  /** The names that end up in the list, in order. */
  function Kept(names: seq<Option<string>>): (r: seq<string>)
    ensures forall n | n in r :: !IsShadowArgs(n)
  {
    if names == [] then []
    else (if names[0].Some? && !IsShadowArgs(names[0].value) then [names[0].value] else []) + Kept(names[1..])
  }

  /** Each name with its value in the state. */
  function Pairs<V>(state: map<string, V>, names: seq<string>): (r: seq<(string, V)>)
    requires forall n | n in names :: n in state
    ensures |r| == |names|
  {
    if names == [] then [] else [(names[0], state[names[0]])] + Pairs(state, names[1..])
  }

  /** Entry k of the pairs is the k-th name with its value in the state. */
  lemma {:induction false} PairsAt<V>(state: map<string, V>, names: seq<string>, k: nat)
    requires (forall n | n in names :: n in state) && k < |names|
    ensures Pairs(state, names)[k] == (names[k], state[names[k]])
    decreases k
  {
    if k > 0 {
      assert forall n | n in names[1..] :: n in names;
      PairsAt(state, names[1..], k - 1);
    }
  }

  /**
   * `actor_get_managed` succeeds exactly when every name decodes and every
   * name kept is in the actor state, and then lists the kept names with
   * their values, in order.
   */
  lemma ManagedListed<V>(state: map<string, V>, names: seq<Option<string>>)
    ensures ManagedFrom(state, names, 0, []).Listed? <==>
      (forall j | 0 <= j < |names| :: names[j].Some?) && forall n | n in Kept(names) :: n in state
    ensures ManagedFrom(state, names, 0, []).Listed? ==>
      (forall n | n in Kept(names) :: n in state)
      && ManagedFrom(state, names, 0, []).items == Pairs(state, Kept(names))
  {
    assert names[0..] == names;
    ListedWhen(state, names, 0, []);
    if ManagedFrom(state, names, 0, []).Listed? {
      ListedItems(state, names, 0, []);
      assert [] + Pairs(state, Kept(names)) == Pairs(state, Kept(names));
    }
  }

  lemma KeptStep(names: seq<Option<string>>, i: nat)
    requires i < |names|
    ensures Kept(names[i..]) == (if names[i].Some? && !IsShadowArgs(names[i].value) then [names[i].value] else []) + Kept(names[i + 1..])
  {
    assert names[i..][1..] == names[i + 1..];
  }

  lemma {:induction false} ListedWhen<V>(state: map<string, V>, names: seq<Option<string>>, i: nat, acc: seq<(string, V)>)
    requires i <= |names|
    ensures ManagedFrom(state, names, i, acc).Listed? <==>
      (forall j | i <= j < |names| :: names[j].Some?) && forall n | n in Kept(names[i..]) :: n in state
    decreases |names| - i
  {
    if i == |names| {
      assert names[i..] == [];
    } else {
      KeptStep(names, i);
      match names[i]
      case None =>
      case Some(n) =>
        if IsShadowArgs(n) {
          ListedWhen(state, names, i + 1, acc);
        } else if n in state {
          ListedWhen(state, names, i + 1, acc + [(n, state[n])]);
        } else {
          assert n in Kept(names[i..]);
        }
    }
  }

  lemma {:induction false} ListedItems<V>(state: map<string, V>, names: seq<Option<string>>, i: nat, acc: seq<(string, V)>)
    requires i <= |names| && ManagedFrom(state, names, i, acc).Listed?
    requires forall n | n in Kept(names[i..]) :: n in state
    ensures ManagedFrom(state, names, i, acc).items == acc + Pairs(state, Kept(names[i..]))
    decreases |names| - i
  {
    if i == |names| {
      assert names[i..] == [];
    } else {
      KeptStep(names, i);
      var rest := Kept(names[i + 1..]);
      var n := names[i].value;
      if IsShadowArgs(n) {
        assert ManagedFrom(state, names, i, acc) == ManagedFrom(state, names, i + 1, acc);
        assert Kept(names[i..]) == rest;
        ListedItems(state, names, i + 1, acc);
      } else {
        assert ManagedFrom(state, names, i, acc) == ManagedFrom(state, names, i + 1, acc + [(n, state[n])]);
        assert Kept(names[i..]) == [n] + rest;
        assert n in [n] + rest;
        ListedItems(state, names, i + 1, acc + [(n, state[n])]);
        PairsCons(state, n, rest);
        assert (acc + [(n, state[n])]) + Pairs(state, rest) == acc + ([(n, state[n])] + Pairs(state, rest));
      }
    }
  }

  lemma PairsCons<V>(state: map<string, V>, n: string, rest: seq<string>)
    requires n in state && forall m | m in rest :: m in state
    ensures Pairs(state, [n] + rest) == [(n, state[n])] + Pairs(state, rest)
  {
    assert ([n] + rest)[1..] == rest;
  }

  /** No attribute named like "_shadow_args" is listed. */
  lemma ShadowArgsNeverListed<V>(state: map<string, V>, names: seq<Option<string>>)
    ensures ManagedFrom(state, names, 0, []).Listed? ==>
      forall k | 0 <= k < |ManagedFrom(state, names, 0, []).items| :: !IsShadowArgs(ManagedFrom(state, names, 0, []).items[k].0)
  {
    ManagedListed(state, names);
    if ManagedFrom(state, names, 0, []).Listed? {
      var kept := Kept(names);
      forall k | 0 <= k < |ManagedFrom(state, names, 0, []).items|
        ensures !IsShadowArgs(ManagedFrom(state, names, 0, []).items[k].0)
      {
        PairsAt(state, kept, k);
        assert ManagedFrom(state, names, 0, []).items[k].0 == kept[k];
        assert kept[k] in kept;
      }
    }
  }

  /**
   * `actor_get_managed`: `managed` is the actor state's "_managed" array,
   * None when there is none, an entry being None when it does not decode
   * as a string. The result and the list handed back are what
   * `ManagedFrom` says.
   */
  method GetManaged<V>(state: map<string, V>, managed: Option<seq<Option<string>>>) returns (r: CcResult, list: seq<(string, V)>)
    ensures managed.None? ==> r == Fail && list == []
    ensures managed.Some? ==> match ManagedFrom(state, managed.value, 0, [])
      case Listed(items) => r == Success && list == items
      case Missing(items) => r == Fail && list == items
      case Undecodable => r == Fail && list == []
  {
    list := [];
    if managed.None? {
      return Fail, [];
    }
    var names := managed.value;
    var i := 0;
    while i < |names|
      invariant 0 <= i <= |names|
      invariant ManagedFrom(state, names, i, list) == ManagedFrom(state, names, 0, [])
    {
      if names[i].None? {
        return Fail, [];
      }
      var n := names[i].value;
      if !IsShadowArgs(n) {
        if n !in state {
          return Fail, list;
        }
        list := list + [(n, state[n])];
      }
      i := i + 1;
    }
    r := Success;
  }

  // ---------------------------------------------------------------------
  // Transmit

  /**
   * The DO_MIGRATE scan over the ports, in-ports first, from port `i` on:
   * an enabled port is put in DO_DISCONNECT and transmitted, which moves it
   * to PENDING_DISCONNECT and stops the scan when its request is sent
   * (`sent[i]`); a port waiting for a reply stops the scan. The result is
   * the ports' new states and whether the scan stopped.
   */
  function ScanFrom(ports: seq<LegacyPort.PortState>, sent: seq<bool>, i: nat): (r: (seq<LegacyPort.PortState>, bool))
    requires |sent| == |ports| && i <= |ports|
    ensures |r.0| == |ports|
    decreases |ports| - i
  {
    if i == |ports| then (ports, false)
    else if ports[i] == LegacyPort.Enabled then
      if sent[i] then (ports[i := LegacyPort.PendingDisconnect], true)
      else ScanFrom(ports[i := LegacyPort.DoDisconnect], sent, i + 1)
    else if LegacyPort.Waiting(ports[i]) then (ports, true)
    else ScanFrom(ports, sent, i + 1)
  }

  /**
   * The scan only ever takes an enabled port towards disconnection, and
   * when it runs to the end no port is left enabled or waiting for a reply.
   */
  lemma {:induction false} ScanDisconnects(ports: seq<LegacyPort.PortState>, sent: seq<bool>, i: nat)
    requires |sent| == |ports| && i <= |ports|
    ensures var scan := ScanFrom(ports, sent, i); var after, stopped := scan.0, scan.1;
      (forall j | 0 <= j < |ports| :: after[j] == ports[j]
        || (i <= j && ports[j] == LegacyPort.Enabled && after[j] in {LegacyPort.DoDisconnect, LegacyPort.PendingDisconnect}))
      && (!stopped ==> forall j | i <= j < |ports| :: after[j] != LegacyPort.Enabled && !LegacyPort.Waiting(after[j]))
    decreases |ports| - i
  {
    if i < |ports| {
      if ports[i] == LegacyPort.Enabled {
        if !sent[i] {
          ScanDisconnects(ports[i := LegacyPort.DoDisconnect], sent, i + 1);
        }
      } else if !LegacyPort.Waiting(ports[i]) {
        ScanDisconnects(ports, sent, i + 1);
      }
    }
  }

  /** The first port from `i` on whose transmit succeeds, or the number of ports. */
  function FirstSent(sent: seq<bool>, i: nat): (k: nat)
    requires i <= |sent|
    ensures i <= k <= |sent| && (k < |sent| ==> sent[k])
    ensures forall j | i <= j < k :: !sent[j]
    decreases |sent| - i
  {
    if i == |sent| || sent[i] then i else FirstSent(sent, i + 1)
  }

  /** What `actor_transmit` returns, the actor's new state, its ports' new states, and how many ports the final loop transmitted. */
  datatype Outcome = Outcome(result: CcResult, state: ActorState, ports: seq<LegacyPort.PortState>, transmitted: nat)

  /** The final loop of `actor_transmit`: ports are transmitted in turn until one succeeds. */
  function TransmitAll(s: ActorState, ports: seq<LegacyPort.PortState>, sent: seq<bool>): Outcome
    requires |sent| == |ports|
  {
    var k := FirstSent(sent, 0);
    if k < |sent| then Outcome(Success, s, ports, k + 1) else Outcome(Fail, s, ports, |sent|)
  }

  /**
   * `actor_transmit`. `sent` is whether the actor's own request is sent;
   * `disconnectSent[i]` whether port i's disconnect request is sent in the
   * DO_MIGRATE scan and `portSent[i]` whether its transmit succeeds in the
   * final loop. A failed actor_new request falls through into the final
   * loop, there being no `break` after it.
   */
  function TransmitSpec(s: ActorState, ports: seq<LegacyPort.PortState>, disconnectSent: seq<bool>, portSent: seq<bool>, sent: bool): Outcome
    requires |disconnectSent| == |ports| && |portSent| == |ports|
  {
    match s
    case DoEnable => Outcome(if sent then Success else Fail, Enabled, ports, 0)
    case DoDelete => if sent then Outcome(Success, Pending, ports, 0) else Outcome(Fail, DoDelete, ports, 0)
    case DoMigrate =>
      var (after, stopped) := ScanFrom(ports, disconnectSent, 0);
      if stopped then Outcome(Success, DoMigrate, after, 0)
      else if sent then Outcome(Success, Pending, after, 0)
      else TransmitAll(DoMigrate, after, portSent)
    case _ => TransmitAll(s, ports, portSent)
  }

  /**
   * DO_ENABLE becomes ENABLED whether or not the request is sent, while a
   * DO_DELETE whose request is not sent stays in DO_DELETE and fails.
   */
  lemma EnableAndDeleteRequests(ports: seq<LegacyPort.PortState>, disconnectSent: seq<bool>, portSent: seq<bool>, sent: bool)
    requires |disconnectSent| == |ports| && |portSent| == |ports|
    ensures var o := TransmitSpec(DoEnable, ports, disconnectSent, portSent, sent);
      o.state == Enabled && (o.result == Success <==> sent) && o.ports == ports
    ensures var o := TransmitSpec(DoDelete, ports, disconnectSent, portSent, sent);
      o.state == (if sent then Pending else DoDelete) && (o.result == Success <==> sent) && o.ports == ports
  {
  }

  /**
   * A migration is handed to the registry (the actor goes PENDING) only
   * once no port is left enabled or waiting for a reply; the ports it
   * touches on the way are ones that were enabled.
   */
  lemma MigrateAfterPortsReleased(ports: seq<LegacyPort.PortState>, disconnectSent: seq<bool>, portSent: seq<bool>, sent: bool)
    requires |disconnectSent| == |ports| && |portSent| == |ports|
    ensures var o := TransmitSpec(DoMigrate, ports, disconnectSent, portSent, sent);
      (o.state == Pending ==> forall j | 0 <= j < |ports| :: o.ports[j] != LegacyPort.Enabled && !LegacyPort.Waiting(o.ports[j]))
      && (forall j | 0 <= j < |ports| :: o.ports[j] == ports[j] || ports[j] == LegacyPort.Enabled)
  {
    ScanDisconnects(ports, disconnectSent, 0);
  }

  /** In any other state only the ports are transmitted: SUCCESS exactly when one of them succeeds. */
  lemma SettledActorTransmitsPorts(s: ActorState, ports: seq<LegacyPort.PortState>, disconnectSent: seq<bool>, portSent: seq<bool>, sent: bool)
    requires |disconnectSent| == |ports| && |portSent| == |ports|
    requires s == Enabled || s == Pending
    ensures var o := TransmitSpec(s, ports, disconnectSent, portSent, sent);
      o.state == s && o.ports == ports && (o.result == Success <==> exists j | 0 <= j < |ports| :: portSent[j])
  {
    var k := FirstSent(portSent, 0);
    if exists j | 0 <= j < |ports| :: portSent[j] {
      var j :| 0 <= j < |ports| && portSent[j];
      assert k <= j;
    }
  }

  // ---------------------------------------------------------------------
  // The actor

  class Actor {
    var typeName: string
    /** The index in `ActorTypes` of the type whose functions the actor calls. */
    var kind: nat
    var state: ActorState
    var migrateTo: string
    var inPorts: seq<LegacyPort.Port>
    var outPorts: seq<LegacyPort.Port>

    /** An actor with no type yet and no ports, as `actor_create` allocates it. */
    constructor ()
      ensures typeName == [] && state == Pending && inPorts == [] && outPorts == [] && migrateTo == []
    {
      typeName, kind, state, migrateTo := [], 0, Pending, [];
      inPorts, outPorts := [], [];
    }

    /** In-ports, then out-ports: the order every loop of actor.c visits them in. */
    function Ports(): seq<LegacyPort.Port>
      reads this`inPorts, this`outPorts
    {
      inPorts + outPorts
    }

    function PortSet(): set<LegacyPort.Port>
      reads this`inPorts, this`outPorts
    {
      set p | p in inPorts + outPorts
    }

    /** The ports' states, in visiting order. */
    function PortStates(): (r: seq<LegacyPort.PortState>)
      reads this`inPorts, this`outPorts, PortSet()
      ensures |r| == |Ports()| && forall j | 0 <= j < |Ports()| :: r[j] == Ports()[j].state
    {
      var ports := Ports();
      seq(|ports|, j requires 0 <= j < |ports| reads ports => ports[j].state)
    }

    /** No port is held twice. */
    predicate Distinct()
      reads this`inPorts, this`outPorts
    {
      forall i, j | 0 <= i < j < |Ports()| :: Ports()[i] != Ports()[j]
    }

    /**
     * `actor_init_from_type`: the first table type agreeing with the first
     * `typeLen` characters of `t` gives the actor its functions; the actor
     * takes those characters as its type, is PENDING and has no ports.
     * An unknown type fails with nothing changed.
     */
    method InitFromType(t: string, typeLen: nat) returns (r: CcResult)
      modifies this
      ensures r == (if TypeIndex(t, typeLen).Some? then Success else Fail)
      ensures r == Success ==> (kind == TypeIndex(t, typeLen).value && typeName == Prefix(t, typeLen)
        && state == Pending && inPorts == [] && outPorts == [] && migrateTo == old(migrateTo))
      ensures r == Fail ==> unchanged(this)
    {
      var i := 0;
      while i < |ActorTypes|
        invariant 0 <= i <= |ActorTypes|
        invariant TypeIndexFrom(t, typeLen, i) == TypeIndex(t, typeLen)
      {
        if StrNEq(t, ActorTypes[i], typeLen) {
          typeName := Prefix(t, typeLen);
          state := Pending;
          inPorts, outPorts := [], [];
          kind := i;
          return Success;
        }
        i := i + 1;
      }
      r := Fail;
    }

    /**
     * `actor_port_enabled`: once every in-port and every out-port is
     * ENABLED the actor goes to DO_ENABLE; otherwise nothing changes.
     */
    method PortEnabled()
      modifies this`state
      ensures state == if forall j | 0 <= j < |Ports()| :: Ports()[j].state == LegacyPort.Enabled then DoEnable else old(state)
    {
      var i := 0;
      while i < |inPorts|
        invariant 0 <= i <= |inPorts|
        invariant forall j | 0 <= j < i :: inPorts[j].state == LegacyPort.Enabled
      {
        if inPorts[i].state != LegacyPort.Enabled {
          assert Ports()[i] == inPorts[i];
          return;
        }
        i := i + 1;
      }
      i := 0;
      while i < |outPorts|
        invariant 0 <= i <= |outPorts|
        invariant forall j | 0 <= j < i :: outPorts[j].state == LegacyPort.Enabled
      {
        if outPorts[i].state != LegacyPort.Enabled {
          assert Ports()[|inPorts| + i] == outPorts[i];
          return;
        }
        i := i + 1;
      }
      state := DoEnable;
    }

    /** `actor_delete`: the actor and every one of its ports go to DO_DELETE. */
    method Delete()
      modifies this`state, PortSet()`state
      ensures state == DoDelete
      ensures forall j | 0 <= j < |Ports()| :: Ports()[j].state == LegacyPort.DoDelete
    {
      state := DoDelete;
      var i := 0;
      while i < |Ports()|
        invariant 0 <= i <= |Ports()| && state == DoDelete
        invariant forall j | 0 <= j < i :: Ports()[j].state == LegacyPort.DoDelete
      {
        Ports()[i].state := LegacyPort.DoDelete;
        i := i + 1;
      }
    }

    /** `actor_migrate`: the target runtime's id is copied into `migrate_to` and the actor goes to DO_MIGRATE. */
    method Migrate(to: string, n: nat) returns (r: CcResult)
      modifies this`migrateTo, this`state
      ensures r == Success && state == DoMigrate && migrateTo == StrNCpy(old(migrateTo), to, n)
    {
      migrateTo := StrNCpy(migrateTo, to, n);
      state := DoMigrate;
      r := Success;
    }

    /** Port `i` takes state `s`; with distinct ports no other port changes. */
    method SetPortState(i: nat, s: LegacyPort.PortState)
      requires Distinct() && i < |Ports()|
      modifies {Ports()[i]}`state
      ensures PortStates() == old(PortStates())[i := s]
    {
      Ports()[i].state := s;
    }

    /** The DO_MIGRATE scan of `actor_transmit`. */
    method Scan(disconnectSent: seq<bool>) returns (stopped: bool)
      requires Distinct() && |disconnectSent| == |Ports()|
      modifies PortSet()`state
      ensures PortStates() == ScanFrom(old(PortStates()), disconnectSent, 0).0
      ensures stopped == ScanFrom(old(PortStates()), disconnectSent, 0).1
    {
      ghost var goal := ScanFrom(PortStates(), disconnectSent, 0);
      var i := 0;
      while i < |Ports()|
        invariant 0 <= i <= |Ports()|
        invariant ScanFrom(PortStates(), disconnectSent, i) == goal
      {
        stopped := ScanPort(i, disconnectSent[i]);
        if stopped {
          return;
        }
        i := i + 1;
      }
      stopped := false;
    }

    /**
     * One port of the DO_MIGRATE scan: an enabled port goes to
     * DO_DISCONNECT and is transmitted, becoming PENDING_DISCONNECT when
     * its request is sent (`sent`), which stops the scan; a port waiting
     * for a reply stops the scan unchanged.
     */
    method ScanPort(i: nat, sent: bool) returns (stop: bool)
      requires Distinct() && i < |Ports()|
      modifies PortSet()`state
      ensures var before := old(PortStates());
        (before[i] == LegacyPort.Enabled ==>
          PortStates() == before[i := if sent then LegacyPort.PendingDisconnect else LegacyPort.DoDisconnect] && stop == sent)
        && (before[i] != LegacyPort.Enabled ==> PortStates() == before && stop == LegacyPort.Waiting(before[i]))
    {
      var port := Ports()[i];
      stop := false;
      if port.state == LegacyPort.Enabled {
        SetPortState(i, LegacyPort.DoDisconnect);
        var next := LegacyPort.TransmitState(LegacyPort.DoDisconnect, port.hasTunnel, false, sent);
        assert next == if sent then LegacyPort.PendingDisconnect else LegacyPort.DoDisconnect;
        SetPortState(i, next);
        stop := sent;
      } else if LegacyPort.Waiting(port.state) {
        stop := true;
      }
    }

    /** The final loop of `actor_transmit`: the number of ports transmitted, and whether one succeeded. */
    method TransmitPorts(portSent: seq<bool>) returns (r: CcResult, transmitted: nat)
      requires |portSent| == |Ports()|
      ensures Outcome(r, state, PortStates(), transmitted) == TransmitAll(state, PortStates(), portSent)
    {
      var i := 0;
      while i < |portSent|
        invariant 0 <= i <= |portSent| && FirstSent(portSent, i) == FirstSent(portSent, 0)
      {
        if portSent[i] {
          return Success, i + 1;
        }
        i := i + 1;
      }
      return Fail, |portSent|;
    }

    /**
     * `actor_transmit` with the sends as parameters (see `TransmitSpec`);
     * the ports' own transmits in the final loop are `LegacyPort.Port.Transmit`
     * and are not composed here.
     */
    method Transmit(disconnectSent: seq<bool>, portSent: seq<bool>, sent: bool) returns (r: CcResult, transmitted: nat)
      requires Distinct() && |disconnectSent| == |Ports()| && |portSent| == |Ports()|
      modifies this`state, PortSet()`state
      ensures Outcome(r, state, PortStates(), transmitted) == TransmitSpec(old(state), old(PortStates()), disconnectSent, portSent, sent)
    {
      match state
      case DoEnable =>
        state := Enabled;
        r, transmitted := if sent then Success else Fail, 0;
      case DoDelete =>
        state := Pending;
        if sent {
          return Success, 0;
        }
        state := DoDelete;
        r, transmitted := Fail, 0;
      case DoMigrate =>
        var stopped := Scan(disconnectSent);
        if stopped {
          return Success, 0;
        }
        state := Pending;
        if sent {
          return Success, 0;
        }
        state := DoMigrate;
        r, transmitted := TransmitPorts(portSent);
      case _ =>
        r, transmitted := TransmitPorts(portSent);
    }
  }
}
