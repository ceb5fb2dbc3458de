/**
 * The action model of Python actors (libmpy/modules/calvin/actor/actor.py).
 *
 * An action is a method wrapped by `@condition` (which port tokens it
 * consumes and which ports it produces to) and optionally by an outer
 * `@stateguard`. Firing an action is a small transaction over the actor's
 * port queues: check, peek, run the body, then commit or cancel. `Actor.fire`
 * runs the actions in priority order, restarting from the top after every
 * firing, until a whole pass fires nothing.
 *
 * A port queue is seen here as the Python glue sees a runtime ring: its
 * uncommitted tokens, how many of them are peeked, and how many tokens it
 * can hold (one less than its number of slots).
 */
module ActorPy {
  import opened Wrappers
  import opened Text

  type PortName = string

  /** The Python values that actions consume, produce and keep as attributes. */
  datatype PyValue =
    | PyNone
    | PyBool(b: bool)
    | PyInt(i: int)
    | PyStr(s: string)
    | PyTuple(items: seq<PyValue>)
    | PyDict(entries: map<string, PyValue>)

  /** Python truthiness. */
  predicate Truthy(v: PyValue)
  {
    match v
    case PyNone => false
    case PyBool(b) => b
    case PyInt(i) => i != 0
    case PyStr(s) => |s| > 0
    case PyTuple(items) => |items| > 0
    case PyDict(entries) => |entries| > 0
  }

  /** `d.get(key)`: the entry, or None when the key is missing (or `d` is not a dict). */
  function Get(d: PyValue, key: string): (r: PyValue)
    ensures d.PyDict? && key in d.entries ==> r == d.entries[key]
    ensures !(d.PyDict? && key in d.entries) ==> r == PyNone
  {
    if d.PyDict? && key in d.entries then d.entries[key] else PyNone
  }

  /** `str(v)` for the scalar values actions format; containers are rendered as a placeholder. */
  function Str(v: PyValue): string
  {
    match v
    case PyNone => "None"
    case PyBool(b) => if b then "True" else "False"
    case PyInt(i) => if i < 0 then "-" + Decimal(-i) else Decimal(i)
    case PyStr(s) => s
    case PyTuple(_) => "<tuple>"
    case PyDict(_) => "<dict>"
  }

  // ---------------------------------------------------------------------
  // Port queues as the actions see them

  /** Uncommitted tokens (oldest first), how many are peeked, and how many the ring holds. */
  datatype Queue = Queue(tokens: seq<PyValue>, peeked: nat, capacity: nat)
  {
    predicate Valid()
    {
      peeked <= |tokens| <= capacity
    }

    /** `ccmp_tokens_available(port, 1)`: a token not yet peeked. */
    predicate TokenAvailable()
    {
      |tokens| > peeked
    }

    /** `ccmp_slots_available(port, 1)`: room for one more token. */
    predicate SlotAvailable()
    {
      |tokens| < capacity
    }
  }

  /** `ccmp_peek_token`: the first token not yet peeked. */
  function PeekQueue(q: Queue): (PyValue, Queue)
    requires q.TokenAvailable()
  {
    (q.tokens[q.peeked], q.(peeked := q.peeked + 1))
  }

  /** `ccmp_peek_commit`: drops the oldest token if one is peeked. */
  function CommitQueue(q: Queue): Queue
  {
    if q.peeked > 0 && |q.tokens| > 0 then q.(tokens := q.tokens[1..], peeked := q.peeked - 1) else q
  }

  /** `ccmp_peek_cancel`: forgets every peek. */
  function CancelQueue(q: Queue): Queue
  {
    q.(peeked := 0)
  }

  /** `ccmp_write_token`: appends when there is room; otherwise the token is dropped. */
  function WriteQueue(q: Queue, v: PyValue): Queue
  {
    if q.SlotAvailable() then q.(tokens := q.tokens + [v]) else q
  }

  predicate Distinct(names: seq<PortName>)
  {
    forall i, j | 0 <= i < j < |names| :: names[i] != names[j]
  }

  /** None of the named ports has a peeked token. */
  predicate Unpeeked(ports: map<PortName, Queue>, names: seq<PortName>)
  {
    forall i | 0 <= i < |names| && names[i] in ports :: ports[names[i]].peeked == 0
  }

  // ---------------------------------------------------------------------
  // Actions and their specification

  /** The actor's ports and its own attributes. */
  datatype Config<S> = Config(inPorts: map<PortName, Queue>, outPorts: map<PortName, Queue>, state: S)

  /**
   * An action: the ports of its `@condition`, the test of an outer
   * `@stateguard` (if any), and its body, which sees the actor's attributes
   * and the peeked tokens and returns the new attributes and the production
   * (`None` when the body returns Python's None).
   */
  datatype Action<!S> = Action(
    inputs: seq<PortName>,
    outputs: seq<PortName>,
    guard: Option<S -> bool>,
    body: (S, seq<PyValue>) -> (S, Option<seq<PyValue>>))

  /** The result tuple `(did_fire, output_ok, exhausted_ports)`, or the exception an invalid production raises. */
  datatype Outcome = Outcome(didFire: bool, outputOk: bool, exhausted: set<PortName>) | Raised

  /** `all(ccmp_tokens_available(...) for portname in action_input)`; a port the actor lacks has no tokens. */
  predicate InputOk(ins: map<PortName, Queue>, names: seq<PortName>)
  {
    forall i | 0 <= i < |names| :: names[i] in ins && ins[names[i]].TokenAvailable()
  }

  /** `all(ccmp_slots_available(...) for portname in action_output)`. */
  predicate OutputOk(outs: map<PortName, Queue>, names: seq<PortName>)
  {
    forall i | 0 <= i < |names| :: names[i] in outs && outs[names[i]].SlotAvailable()
  }

  /** Peeks one token from each named port, in order. */
  function PeekAll(ins: map<PortName, Queue>, names: seq<PortName>): (r: (seq<PyValue>, map<PortName, Queue>))
    ensures |r.0| == |names| && r.1.Keys == ins.Keys
  {
    if |names| == 0 then ([], ins)
    else
      var p := names[0];
      var v := if p in ins && ins[p].TokenAvailable() then PeekQueue(ins[p]).0 else PyNone;
      var ins1 := if p in ins && ins[p].TokenAvailable() then ins[p := PeekQueue(ins[p]).1] else ins;
      var rest := PeekAll(ins1, names[1..]);
      ([v] + rest.0, rest.1)
  }

  function CommitAll(ins: map<PortName, Queue>, names: seq<PortName>): (r: map<PortName, Queue>)
    ensures r.Keys == ins.Keys
  {
    if |names| == 0 then ins
    else CommitAll(if names[0] in ins then ins[names[0] := CommitQueue(ins[names[0]])] else ins, names[1..])
  }

  function CancelAll(ins: map<PortName, Queue>, names: seq<PortName>): (r: map<PortName, Queue>)
    ensures r.Keys == ins.Keys
  {
    if |names| == 0 then ins
    else CancelAll(if names[0] in ins then ins[names[0] := CancelQueue(ins[names[0]])] else ins, names[1..])
  }

  /** `for portname, retval in zip(action_output, production)`: writes pairwise, up to the shorter list. */
  function WriteAll(outs: map<PortName, Queue>, names: seq<PortName>, values: seq<PyValue>): (r: map<PortName, Queue>)
    ensures r.Keys == outs.Keys
  {
    if |names| == 0 || |values| == 0 then outs
    else WriteAll(if names[0] in outs then outs[names[0] := WriteQueue(outs[names[0]], values[0])] else outs, names[1..], values[1..])
  }

  /** The `@condition` wrapper: check, peek, run the body, then commit and write or cancel and raise. */
  function ConditionSpec<S>(a: Action<S>, c: Config<S>): (Outcome, Config<S>)
  {
    if !InputOk(c.inPorts, a.inputs) || !OutputOk(c.outPorts, a.outputs) then
      (Outcome(false, OutputOk(c.outPorts, a.outputs), {}), c)
    else
      var peeked := PeekAll(c.inPorts, a.inputs);
      var ran := a.body(c.state, peeked.0);
      var production := ran.1.GetOr([]);
      if |production| == |a.outputs| then
        (Outcome(true, true, set p | p in a.inputs),
         Config(CommitAll(peeked.1, a.inputs), WriteAll(c.outPorts, a.outputs, production), ran.0))
      else
        (Raised, Config(CancelAll(peeked.1, a.inputs), c.outPorts, ran.0))
  }

  /** An action with its outer `@stateguard`: a false guard answers `(False, True, ())` without touching anything. */
  function ActionSpec<S>(a: Action<S>, c: Config<S>): (Outcome, Config<S>)
  {
    if a.guard.Some? && !a.guard.value(c.state) then (Outcome(false, true, {}), c)
    else ConditionSpec(a, c)
  }

  /** What one pass of the priority loop ends with. */
  datatype Pass<S> = Fired(index: nat, config: Config<S>) | NoneFired(config: Config<S>) | PassRaised(config: Config<S>)

  /** One pass over `actions[i..]`: the first action that fires ends the pass. */
  function PassSpec<S>(actions: seq<Action<S>>, c: Config<S>, i: nat): Pass<S>
    requires i <= |actions|
    decreases |actions| - i
  {
    if i == |actions| then NoneFired(c)
    else
      var r := ActionSpec(actions[i], c);
      if r.0.Raised? then PassRaised(r.1)
      else if r.0.didFire then Fired(i, r.1)
      else PassSpec(actions, r.1, i + 1)
  }

  /**
   * What `Actor.fire` returns: whether any action fired, or the exception
   * that escaped; `OutOfPasses` when the pass budget of the model ran out.
   */
  datatype FireResult<S> =
    | Done(didFire: bool, config: Config<S>)
    | FireRaised(config: Config<S>)
    | OutOfPasses(didFire: bool, config: Config<S>)

  function FireLoop<S>(actions: seq<Action<S>>, c: Config<S>, passes: nat, acc: bool): FireResult<S>
    decreases passes
  {
    if passes == 0 then OutOfPasses(acc, c)
    else
      match PassSpec(actions, c, 0)
      case PassRaised(c1) => FireRaised(c1)
      case NoneFired(c1) => Done(acc, c1)
      case Fired(_, c1) => FireLoop(actions, c1, passes - 1, true)
  }

  /**
   * `Actor.fire` with a budget of `passes` passes. With no actions at all
   * the loop reads `did_fire` before any action assigned it, which raises.
   */
  function FireSpec<S>(actions: seq<Action<S>>, c: Config<S>, passes: nat): FireResult<S>
  {
    if |actions| == 0 then FireRaised(c) else FireLoop(actions, c, passes, false)
  }

  // ---------------------------------------------------------------------
  // Properties of the specification

  /** An action that is not ready reports whether its outputs had room, and touches nothing. */
  lemma NotReadyTouchesNothing<S>(a: Action<S>, c: Config<S>)
    requires !InputOk(c.inPorts, a.inputs) || !OutputOk(c.outPorts, a.outputs)
    ensures ActionSpec(a, c).1 == c
    ensures ActionSpec(a, c).0 == Outcome(false, a.guard.None? || a.guard.value(c.state) ==> OutputOk(c.outPorts, a.outputs), {})
  {
  }

  /** A false guard is checked before any port and the body does not run. */
  lemma FalseGuardTouchesNothing<S>(a: Action<S>, c: Config<S>)
    requires a.guard.Some? && !a.guard.value(c.state)
    ensures ActionSpec(a, c) == (Outcome(false, true, {}), c)
  {
  }

  /** Peeking leaves ports not named untouched. */
  lemma {:induction false} PeekAllOthers(ins: map<PortName, Queue>, names: seq<PortName>, p: PortName)
    requires p !in names
    ensures p in ins ==> PeekAll(ins, names).1[p] == ins[p]
  {
    if |names| > 0 {
      var q := names[0];
      var ins1 := if q in ins && ins[q].TokenAvailable() then ins[q := PeekQueue(ins[q]).1] else ins;
      assert p !in names[1..];
      PeekAllOthers(ins1, names[1..], p);
    }
  }

  /**
   * With every input ready and named once, the arguments are the next
   * unpeeked token of each input port in `action_input` order, and each
   * of those ports has one more token peeked.
   */
  lemma {:induction false} PeekAllArgs(ins: map<PortName, Queue>, names: seq<PortName>)
    requires InputOk(ins, names) && Distinct(names)
    ensures forall k | 0 <= k < |names| ::
      PeekAll(ins, names).0[k] == ins[names[k]].tokens[ins[names[k]].peeked]
    ensures forall k | 0 <= k < |names| ::
      PeekAll(ins, names).1[names[k]] == ins[names[k]].(peeked := ins[names[k]].peeked + 1)
    ensures forall p | p in ins && p !in names :: PeekAll(ins, names).1[p] == ins[p]
  {
    if |names| > 0 {
      var p := names[0];
      var ins1 := ins[p := PeekQueue(ins[p]).1];
      var tail := names[1..];
      assert p !in tail;
      assert InputOk(ins1, tail) by {
        forall i | 0 <= i < |tail| ensures tail[i] in ins1 && ins1[tail[i]].TokenAvailable() {
          assert tail[i] == names[i + 1];
        }
      }
      PeekAllArgs(ins1, tail);
      PeekAllOthers(ins1, tail, p);
      forall k | 1 <= k < |names|
        ensures PeekAll(ins, names).0[k] == ins[names[k]].tokens[ins[names[k]].peeked]
        ensures PeekAll(ins, names).1[names[k]] == ins[names[k]].(peeked := ins[names[k]].peeked + 1)
      {
        assert names[k] == tail[k - 1];
      }
      forall q | q in ins && q !in names ensures PeekAll(ins, names).1[q] == ins[q] {
        PeekAllOthers(ins1, tail, q);
      }
    }
  }

  lemma {:induction false} CancelAllOthers(ins: map<PortName, Queue>, names: seq<PortName>, p: PortName)
    requires p !in names
    ensures p in ins ==> CancelAll(ins, names)[p] == ins[p]
  {
    if |names| > 0 {
      assert p !in names[1..];
      CancelAllOthers(if names[0] in ins then ins[names[0] := CancelQueue(ins[names[0]])] else ins, names[1..], p);
    }
  }

  lemma {:induction false} CancelAllNamed(ins: map<PortName, Queue>, names: seq<PortName>)
    ensures forall p | p in ins && p in names :: CancelAll(ins, names)[p] == CancelQueue(ins[p])
    ensures forall p | p in ins && p !in names :: CancelAll(ins, names)[p] == ins[p]
  {
    if |names| > 0 {
      var ins1 := if names[0] in ins then ins[names[0] := CancelQueue(ins[names[0]])] else ins;
      CancelAllNamed(ins1, names[1..]);
      forall p | p in ins && p in names ensures CancelAll(ins, names)[p] == CancelQueue(ins[p]) {
        if p != names[0] {
          assert p in names[1..];
        }
      }
      forall p | p in ins && p !in names ensures CancelAll(ins, names)[p] == ins[p] {
        CancelAllOthers(ins1, names[1..], p);
      }
    }
  }

  /**
   * An invalid production (a production whose length is not the number of
   * outputs) raises, writes nothing, and leaves every input queue as it was
   * before the action when nothing was peeked beforehand.
   */
  lemma InvalidProductionRestoresInputs<S>(a: Action<S>, c: Config<S>)
    requires a.guard.None? || a.guard.value(c.state)
    requires InputOk(c.inPorts, a.inputs) && OutputOk(c.outPorts, a.outputs) && Distinct(a.inputs)
    requires Unpeeked(c.inPorts, a.inputs)
    requires |a.body(c.state, PeekAll(c.inPorts, a.inputs).0).1.GetOr([])| != |a.outputs|
    ensures ActionSpec(a, c).0 == Raised
    ensures ActionSpec(a, c).1.inPorts == c.inPorts
    ensures ActionSpec(a, c).1.outPorts == c.outPorts
  {
    var peeked := PeekAll(c.inPorts, a.inputs);
    PeekAllArgs(c.inPorts, a.inputs);
    CancelAllNamed(peeked.1, a.inputs);
    var after := CancelAll(peeked.1, a.inputs);
    forall p | p in c.inPorts ensures after[p] == c.inPorts[p] {
      if p in a.inputs {
        var k :| 0 <= k < |a.inputs| && a.inputs[k] == p;
        assert peeked.1[a.inputs[k]] == c.inPorts[p].(peeked := 1);
      }
    }
  }

  lemma {:induction false} CommitAllOthers(ins: map<PortName, Queue>, names: seq<PortName>, p: PortName)
    requires p !in names
    ensures p in ins ==> CommitAll(ins, names)[p] == ins[p]
  {
    if |names| > 0 {
      assert p !in names[1..];
      CommitAllOthers(if names[0] in ins then ins[names[0] := CommitQueue(ins[names[0]])] else ins, names[1..], p);
    }
  }

  lemma {:induction false} CommitAllNamed(ins: map<PortName, Queue>, names: seq<PortName>)
    requires Distinct(names)
    ensures forall p | p in ins && p in names :: CommitAll(ins, names)[p] == CommitQueue(ins[p])
    ensures forall p | p in ins && p !in names :: CommitAll(ins, names)[p] == ins[p]
  {
    if |names| > 0 {
      var ins1 := if names[0] in ins then ins[names[0] := CommitQueue(ins[names[0]])] else ins;
      assert Distinct(names[1..]);
      CommitAllNamed(ins1, names[1..]);
      forall p | p in ins && p in names ensures CommitAll(ins, names)[p] == CommitQueue(ins[p]) {
        if p == names[0] {
          assert p !in names[1..];
          CommitAllOthers(ins1, names[1..], p);
        } else {
          assert p in names[1..];
        }
      }
      forall p | p in ins && p !in names ensures CommitAll(ins, names)[p] == ins[p] {
        CommitAllOthers(ins1, names[1..], p);
      }
    }
  }

  lemma {:induction false} WriteAllOthers(outs: map<PortName, Queue>, names: seq<PortName>, values: seq<PyValue>, p: PortName)
    requires p !in names
    ensures p in outs ==> WriteAll(outs, names, values)[p] == outs[p]
  {
    if |names| > 0 && |values| > 0 {
      assert p !in names[1..];
      WriteAllOthers(if names[0] in outs then outs[names[0] := WriteQueue(outs[names[0]], values[0])] else outs, names[1..], values[1..], p);
    }
  }

  /** Writing pairwise to distinct ports with room appends each value to its own port. */
  lemma {:induction false} WriteAllAppends(outs: map<PortName, Queue>, names: seq<PortName>, values: seq<PyValue>)
    requires OutputOk(outs, names) && Distinct(names) && |values| == |names|
    ensures forall k | 0 <= k < |names| ::
      WriteAll(outs, names, values)[names[k]] == outs[names[k]].(tokens := outs[names[k]].tokens + [values[k]])
    ensures forall p | p in outs && p !in names :: WriteAll(outs, names, values)[p] == outs[p]
  {
    if |names| > 0 {
      var p := names[0];
      var outs1 := outs[p := WriteQueue(outs[p], values[0])];
      var tail := names[1..];
      assert p !in tail;
      assert OutputOk(outs1, tail) by {
        forall i | 0 <= i < |tail| ensures tail[i] in outs1 && outs1[tail[i]].SlotAvailable() {
          assert tail[i] == names[i + 1];
        }
      }
      WriteAllAppends(outs1, tail, values[1..]);
      WriteAllOthers(outs1, tail, values[1..], p);
      forall k | 1 <= k < |names|
        ensures WriteAll(outs, names, values)[names[k]] == outs[names[k]].(tokens := outs[names[k]].tokens + [values[k]])
      {
        assert names[k] == tail[k - 1];
      }
      forall q | q in outs && q !in names ensures WriteAll(outs, names, values)[q] == outs[q] {
        WriteAllOthers(outs1, tail, values[1..], q);
      }
    }
  }

  /**
   * A valid production fires: the result is `(True, True, inputs)`, every
   * input port loses exactly its oldest token (when nothing was peeked
   * beforehand), and each produced value is appended to its output port.
   */
  lemma ValidProductionCommitsAndWrites<S>(a: Action<S>, c: Config<S>)
    requires a.guard.None? || a.guard.value(c.state)
    requires InputOk(c.inPorts, a.inputs) && OutputOk(c.outPorts, a.outputs)
    requires Distinct(a.inputs) && Distinct(a.outputs) && Unpeeked(c.inPorts, a.inputs)
    requires |a.body(c.state, PeekAll(c.inPorts, a.inputs).0).1.GetOr([])| == |a.outputs|
    ensures ActionSpec(a, c).0 == Outcome(true, true, set p | p in a.inputs)
    ensures forall k | 0 <= k < |a.inputs| ::
      ActionSpec(a, c).1.inPorts[a.inputs[k]] == c.inPorts[a.inputs[k]].(tokens := c.inPorts[a.inputs[k]].tokens[1..])
    ensures forall p | p in c.inPorts && p !in a.inputs :: ActionSpec(a, c).1.inPorts[p] == c.inPorts[p]
    ensures forall k | 0 <= k < |a.outputs| ::
      ActionSpec(a, c).1.outPorts[a.outputs[k]]
        == c.outPorts[a.outputs[k]].(tokens := c.outPorts[a.outputs[k]].tokens + [a.body(c.state, PeekAll(c.inPorts, a.inputs).0).1.GetOr([])[k]])
    ensures forall p | p in c.outPorts && p !in a.outputs :: ActionSpec(a, c).1.outPorts[p] == c.outPorts[p]
    ensures ActionSpec(a, c).1.state == a.body(c.state, PeekAll(c.inPorts, a.inputs).0).0
  {
    var peeked := PeekAll(c.inPorts, a.inputs);
    PeekAllArgs(c.inPorts, a.inputs);
    CommitAllNamed(peeked.1, a.inputs);
    WriteAllAppends(c.outPorts, a.outputs, a.body(c.state, peeked.0).1.GetOr([]));
  }

  /** An action that does not fire (and does not raise) leaves the configuration as it was. */
  lemma NoFireNoChange<S>(a: Action<S>, c: Config<S>)
    requires ActionSpec(a, c).0.Outcome? && !ActionSpec(a, c).0.didFire
    ensures ActionSpec(a, c).1 == c
  {
  }

  /**
   * A pass fires the first action, in priority order, that fires in the
   * configuration the pass started from; a pass that fires nothing leaves
   * the configuration unchanged.
   */
  lemma {:induction false} PassPriority<S>(actions: seq<Action<S>>, c: Config<S>, i: nat)
    requires i <= |actions|
    ensures PassSpec(actions, c, i).Fired? ==>
      var j := PassSpec(actions, c, i).index;
      i <= j < |actions|
      && (forall k | i <= k < j :: ActionSpec(actions[k], c).0.Outcome? && !ActionSpec(actions[k], c).0.didFire)
      && ActionSpec(actions[j], c).0.Outcome? && ActionSpec(actions[j], c).0.didFire
      && PassSpec(actions, c, i).config == ActionSpec(actions[j], c).1
    ensures PassSpec(actions, c, i).NoneFired? ==>
      PassSpec(actions, c, i).config == c
      && forall k | i <= k < |actions| :: ActionSpec(actions[k], c).0.Outcome? && !ActionSpec(actions[k], c).0.didFire
    decreases |actions| - i
  {
    if i < |actions| {
      var r := ActionSpec(actions[i], c);
      if r.0.Outcome? && !r.0.didFire {
        NoFireNoChange(actions[i], c);
        PassPriority(actions, c, i + 1);
      }
    }
  }

  function FirstPassFires<S>(actions: seq<Action<S>>, c: Config<S>): bool
  {
    PassSpec(actions, c, 0).Fired?
  }

  lemma {:induction false} FireLoopDidFire<S>(actions: seq<Action<S>>, c: Config<S>, passes: nat, acc: bool)
    requires |actions| > 0
    ensures FireLoop(actions, c, passes, acc).Done? ==>
      (FireLoop(actions, c, passes, acc).didFire <==> acc || FirstPassFires(actions, c))
    decreases passes
  {
    if passes > 0 && PassSpec(actions, c, 0).Fired? {
      FireLoopDidFire(actions, PassSpec(actions, c, 0).config, passes - 1, true);
    }
  }

  /**
   * `Actor.fire` returns the OR of every `did_fire`: once the loop has
   * stopped because a pass fired nothing, the result is true exactly when
   * the first pass fired something.
   */
  lemma FireReturnsOr<S>(actions: seq<Action<S>>, c: Config<S>, passes: nat)
    ensures FireSpec(actions, c, passes).Done? ==>
      (FireSpec(actions, c, passes).didFire <==> FirstPassFires(actions, c))
    ensures FireSpec(actions, c, passes).Done? ==>
      PassSpec(actions, FireSpec(actions, c, passes).config, 0).NoneFired?
  {
    if |actions| > 0 {
      FireLoopDidFire(actions, c, passes, false);
      FireLoopStopsQuiet(actions, c, passes, false);
    }
  }

  lemma {:induction false} FireLoopStopsQuiet<S>(actions: seq<Action<S>>, c: Config<S>, passes: nat, acc: bool)
    ensures FireLoop(actions, c, passes, acc).Done? ==>
      PassSpec(actions, FireLoop(actions, c, passes, acc).config, 0).NoneFired?
    decreases passes
  {
    if passes > 0 {
      match PassSpec(actions, c, 0)
      case PassRaised(_) =>
      case NoneFired(c1) =>
        PassPriority(actions, c, 0);
      case Fired(_, c1) =>
        FireLoopStopsQuiet(actions, c1, passes - 1, true);
    }
  }

  /** An actor with no actions raises when fired. */
  lemma FireWithoutActionsRaises<S>(c: Config<S>, passes: nat)
    ensures FireSpec([], c, passes) == FireRaised(c)
  {
  }

  // ---------------------------------------------------------------------
  // @manage and _managed_state

  /** A decorator argument: absent, a list, or some other value with its truthiness. */
  datatype Arg = NoArg | ListArg(items: seq<string>) | OtherArg(truthy: bool)

  predicate ArgTruthy(a: Arg)
  {
    match a
    case NoArg => false
    case ListArg(items) => |items| > 0
    case OtherArg(t) => t
  }

  /** `manage` raises unless each truthy argument is a list. */
  predicate ManageArgsOk(included: Arg, excluded: Arg)
  {
    (!ArgTruthy(included) || included.ListArg?) && (!ArgTruthy(excluded) || excluded.ListArg?)
  }

  function ArgSet(a: Arg): set<string>
  {
    if ArgTruthy(a) && a.ListArg? then set x | x in a.items else {}
  }

  /**
   * The closure `manage` returns: its included and excluded sets live across
   * calls of the wrapped `init`, and each call updates them.
   */
  class ManageWrapper {
    var included: set<string>
    var excluded: set<string>

    constructor (included0: set<string>, excluded0: set<string>)
      ensures included == included0 && excluded == excluded0
    {
      included := included0;
      excluded := excluded0;
    }

    /**
     * One call of the wrapped `init`, given the instance attributes before
     * and after it: the attributes present before are excluded; without an
     * included list the managed set becomes what `init` added, minus the
     * exclusions; with one it stays the included list.
     */
    method Call(before: set<string>, after: set<string>) returns (managed: set<string>)
      modifies this
      ensures excluded == old(excluded) + before
      ensures old(included) == {} ==> included == after - excluded
      ensures old(included) != {} ==> included == old(included)
      ensures managed == included
    {
      excluded := excluded + before;
      if included == {} {
        included := included + after;
        included := included - excluded;
      }
      managed := included;
    }
  }

  /** `manage(included, excluded)`: refuses non-list arguments, otherwise a wrapper with the given sets. */
  method Manage(included: Arg, excluded: Arg) returns (w: Option<ManageWrapper>)
    ensures w.None? <==> !ManageArgsOk(included, excluded)
    ensures w.Some? ==> fresh(w.value) && w.value.included == ArgSet(included) && w.value.excluded == ArgSet(excluded)
  {
    if !ManageArgsOk(included, excluded) {
      return None;
    }
    var m := new ManageWrapper(ArgSet(included), ArgSet(excluded));
    return Some(m);
  }

  /**
   * `_managed_state`: the managed attributes with their values; a managed
   * key the instance lacks raises (None here).
   */
  function ManagedState(attributes: map<string, PyValue>, managed: set<string>): (r: Option<map<string, PyValue>>)
    ensures r.Some? <==> managed <= attributes.Keys
    ensures r.Some? ==> r.value.Keys == managed && forall k | k in managed :: r.value[k] == attributes[k]
  {
    if managed <= attributes.Keys then Some(map k | k in managed :: attributes[k]) else None
  }

  // ---------------------------------------------------------------------
  // The actor object

  /** A Python actor instance: its port queues and its attributes. */
  class PyActor<S(==)> {
    var inPorts: map<PortName, Queue>
    var outPorts: map<PortName, Queue>
    var state: S

    function Snapshot(): Config<S>
      reads this
    {
      Config(inPorts, outPorts, state)
    }

    constructor (ins: map<PortName, Queue>, outs: map<PortName, Queue>, s: S)
      ensures Snapshot() == Config(ins, outs, s)
    {
      inPorts, outPorts, state := ins, outs, s;
    }

    method PeekInputs(names: seq<PortName>) returns (args: seq<PyValue>)
      modifies this`inPorts
      ensures (args, inPorts) == PeekAll(old(inPorts), names)
    {
      args := [];
      var i := 0;
      assert names[0..] == names;
      while i < |names|
        invariant i <= |names|
        invariant PeekAll(old(inPorts), names).0 == args + PeekAll(inPorts, names[i..]).0
        invariant PeekAll(old(inPorts), names).1 == PeekAll(inPorts, names[i..]).1
      {
        var p := names[i];
        assert names[i..][1..] == names[i + 1..];
        ghost var step := PeekAll(inPorts, names[i..]);
        var v := PyNone;
        if p in inPorts && inPorts[p].TokenAvailable() {
          var peek := PeekQueue(inPorts[p]);
          v := peek.0;
          inPorts := inPorts[p := peek.1];
        }
        ghost var rest := PeekAll(inPorts, names[i + 1..]);
        assert step == ([v] + rest.0, rest.1);
        assert args + [v] + rest.0 == args + ([v] + rest.0);
        args := args + [v];
        i := i + 1;
      }
      assert names[i..] == [];
      assert args + [] == args;
    }

    method CommitInputs(names: seq<PortName>)
      modifies this`inPorts
      ensures inPorts == CommitAll(old(inPorts), names)
    {
      var i := 0;
      while i < |names|
        invariant i <= |names|
        invariant CommitAll(old(inPorts), names) == CommitAll(inPorts, names[i..])
      {
        assert names[i..][1..] == names[i + 1..];
        if names[i] in inPorts {
          inPorts := inPorts[names[i] := CommitQueue(inPorts[names[i]])];
        }
        i := i + 1;
      }
    }

    method CancelInputs(names: seq<PortName>)
      modifies this`inPorts
      ensures inPorts == CancelAll(old(inPorts), names)
    {
      var i := 0;
      while i < |names|
        invariant i <= |names|
        invariant CancelAll(old(inPorts), names) == CancelAll(inPorts, names[i..])
      {
        assert names[i..][1..] == names[i + 1..];
        if names[i] in inPorts {
          inPorts := inPorts[names[i] := CancelQueue(inPorts[names[i]])];
        }
        i := i + 1;
      }
    }

    method WriteOutputs(names: seq<PortName>, values: seq<PyValue>)
      modifies this`outPorts
      ensures outPorts == WriteAll(old(outPorts), names, values)
    {
      var i := 0;
      while i < |names| && i < |values|
        invariant i <= |names| && i <= |values|
        invariant WriteAll(old(outPorts), names, values) == WriteAll(outPorts, names[i..], values[i..])
      {
        assert names[i..][1..] == names[i + 1..] && values[i..][1..] == values[i + 1..];
        if names[i] in outPorts {
          outPorts := outPorts[names[i] := WriteQueue(outPorts[names[i]], values[i])];
        }
        i := i + 1;
      }
    }

    /** The `@condition` wrapper around `a`'s body. */
    method Condition(a: Action<S>) returns (r: Outcome)
      modifies this
      ensures (r, Snapshot()) == ConditionSpec(a, old(Snapshot()))
    {
      var outputOk := OutputOk(outPorts, a.outputs);
      if !InputOk(inPorts, a.inputs) || !outputOk {
        return Outcome(false, outputOk, {});
      }
      var args := PeekInputs(a.inputs);
      var ran := a.body(state, args);
      state := ran.0;
      var production := ran.1.GetOr([]);
      if |production| == |a.outputs| {
        CommitInputs(a.inputs);
        WriteOutputs(a.outputs, production);
        r := Outcome(true, true, set p | p in a.inputs);
      } else {
        CancelInputs(a.inputs);
        r := Raised;
      }
    }

    /** An action with its optional outer `@stateguard`. */
    method Act(a: Action<S>) returns (r: Outcome)
      modifies this
      ensures (r, Snapshot()) == ActionSpec(a, old(Snapshot()))
    {
      if a.guard.Some? && !a.guard.value(state) {
        return Outcome(false, true, {});
      }
      r := Condition(a);
    }

    /** The body of the `while not done` loop: one `for` pass over the priority list. */
    method Pass(actions: seq<Action<S>>) returns (p: Pass<S>)
      modifies this
      ensures p == PassSpec(actions, old(Snapshot()), 0) && Snapshot() == p.config
    {
      var i := 0;
      while i < |actions|
        invariant i <= |actions|
        invariant PassSpec(actions, Snapshot(), i) == PassSpec(actions, old(Snapshot()), 0)
      {
        var r := Act(actions[i]);
        if r.Raised? {
          return PassRaised(Snapshot());
        }
        if r.didFire {
          return Fired(i, Snapshot());
        }
        i := i + 1;
      }
      return NoneFired(Snapshot());
    }

    /** `Actor.fire`, with at most `passes` passes. */
    method Fire(actions: seq<Action<S>>, passes: nat) returns (r: FireResult<S>)
      modifies this
      ensures r == FireSpec(actions, old(Snapshot()), passes) && Snapshot() == r.config
    {
      if |actions| == 0 {
        return FireRaised(Snapshot());
      }
      var actorDidFire := false;
      var left := passes;
      while left > 0
        invariant FireLoop(actions, Snapshot(), left, actorDidFire) == FireSpec(actions, old(Snapshot()), passes)
      {
        var p := Pass(actions);
        match p
        case PassRaised(_) =>
          return FireRaised(Snapshot());
        case NoneFired(_) =>
          return Done(actorDidFire, Snapshot());
        case Fired(_, _) =>
          actorDidFire := true;
          left := left - 1;
      }
      return OutOfPasses(actorDidFire, Snapshot());
    }
  }
}
