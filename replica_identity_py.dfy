/**
 * The Python test actor ReplicaIdentity
 * (test/actors/mpy-cross/test/ReplicaIdentity.py): it forwards each token
 * with the replica index prepended, "<index>:<token>".
 */
module ReplicaIdentityPy {
  import opened Wrappers
  import opened ActorPy
  import opened Text

  /** The attributes `init` sets: `dump` and `index`. */
  datatype ReplicaState = ReplicaState(dump: PyValue, index: PyValue)

  /** `init(dump=False)`: `index` starts at 0. */
  function Init(dump: PyValue): (s: ReplicaState)
    ensures s.index == PyInt(0) && s.dump == dump
  {
    ReplicaState(dump, PyInt(0))
  }

  /** `"{}:{}".format(index, input)`. */
  function Prepended(index: PyValue, input: PyValue): string
  {
    Str(index) + ":" + Str(input)
  }

  /** The `prepend` action: one token in on "token", one string out on "token". */
  function Prepend(): Action<ReplicaState>
  {
    Action(["token"], ["token"], None,
      (s: ReplicaState, args: seq<PyValue>) =>
        (s, Some([PyStr(Prepended(s.index, if |args| > 0 then args[0] else PyNone))])))
  }

  function Priority(): seq<Action<ReplicaState>>
  {
    [Prepend()]
  }

  /** `@manage(['dump', 'index'])` makes exactly these two attributes managed, whatever `init` adds. */
  method ManagedAfterInit(before: set<string>, after: set<string>) returns (managed: set<string>)
    ensures managed == {"dump", "index"}
  {
    var w := Manage(ListArg(["dump", "index"]), NoArg);
    assert ManageArgsOk(ListArg(["dump", "index"]), NoArg);
    assert ArgSet(ListArg(["dump", "index"])) == {"dump", "index"} by {
      assert "dump" in ["dump", "index"] && "index" in ["dump", "index"];
    }
    managed := w.value.Call(before, after);
  }

  /** `did_replicate(index)`: overwrites `index` and nothing else. */
  method DidReplicate(actor: PyActor<ReplicaState>, index: PyValue)
    modifies actor`state
    ensures actor.state == old(actor.state).(index := index)
  {
    actor.state := actor.state.(index := index);
  }

  /** One firing of `prepend` on a ready actor consumes the oldest input and emits the prefixed string. */
  lemma PrependFires(c: Config<ReplicaState>)
    requires "token" in c.inPorts && "token" in c.outPorts
    requires c.inPorts["token"].TokenAvailable() && c.outPorts["token"].SlotAvailable()
    requires c.inPorts["token"].peeked == 0
    ensures ActionSpec(Prepend(), c).0 == Outcome(true, true, {"token"})
    ensures ActionSpec(Prepend(), c).1.inPorts
      == c.inPorts["token" := c.inPorts["token"].(tokens := c.inPorts["token"].tokens[1..])]
    ensures ActionSpec(Prepend(), c).1.outPorts
      == c.outPorts["token" := c.outPorts["token"].(tokens := c.outPorts["token"].tokens
                                 + [PyStr(Prepended(c.state.index, c.inPorts["token"].tokens[0]))])]
    ensures ActionSpec(Prepend(), c).1.state == c.state
  {
    var a := Prepend();
    assert InputOk(c.inPorts, a.inputs) && OutputOk(c.outPorts, a.outputs);
    PeekAllArgs(c.inPorts, a.inputs);
    assert (set p | p in a.inputs) == {"token"};
    ValidProductionCommitsAndWrites(a, c);
  }

  function Ports(tokens: seq<PyValue>, capacity: nat): map<PortName, Queue>
  {
    map["token" := Queue(tokens, 0, capacity)]
  }

  function TestConfig(capacity: nat): Config<ReplicaState>
  {
    Config(Ports([PyInt(1), PyInt(2), PyInt(3)], capacity), Ports([], capacity), Init(PyBool(false)))
  }

  /** One pass of `fire` over an actor with tokens waiting and room on the output. */
  lemma OnePass(ins: seq<PyValue>, outs: seq<PyValue>, capacity: nat, s: ReplicaState)
    requires 0 < |ins| && |outs| < capacity
    ensures PassSpec(Priority(), Config(Ports(ins, capacity), Ports(outs, capacity), s), 0)
      == Fired(0, Config(Ports(ins[1..], capacity), Ports(outs + [PyStr(Prepended(s.index, ins[0]))], capacity), s))
  {
    var c := Config(Ports(ins, capacity), Ports(outs, capacity), s);
    PrependFires(c);
  }

  /** A pass of the loop that fires moves on to the next pass with one token moved. */
  lemma LoopFires(acts: seq<Action<ReplicaState>>, ins: seq<PyValue>, outs: seq<PyValue>, capacity: nat, s: ReplicaState, passes: nat, acc: bool)
    requires acts == Priority() && 0 < |ins| && |outs| < capacity && 0 < passes
    ensures FireLoop(acts, Config(Ports(ins, capacity), Ports(outs, capacity), s), passes, acc)
      == FireLoop(acts, Config(Ports(ins[1..], capacity), Ports(outs + [PyStr(Prepended(s.index, ins[0]))], capacity), s), passes - 1, true)
  {
    OnePass(ins, outs, capacity, s);
  }

  /** With no input left, the next pass fires nothing and the loop ends. */
  lemma LoopEnds(acts: seq<Action<ReplicaState>>, outs: seq<PyValue>, capacity: nat, s: ReplicaState, passes: nat, acc: bool)
    requires acts == Priority() && 0 < passes
    ensures FireLoop(acts, Config(Ports([], capacity), Ports(outs, capacity), s), passes, acc)
      == Done(acc, Config(Ports([], capacity), Ports(outs, capacity), s))
  {
    var c := Config(Ports([], capacity), Ports(outs, capacity), s);
    assert !InputOk(c.inPorts, Prepend().inputs);
    assert PassSpec(Priority(), c, 0) == NoneFired(c);
  }

  /** Each input prefixed with the index, in order. */
  function Prefixed(index: PyValue, ins: seq<PyValue>): (r: seq<PyValue>)
    ensures |r| == |ins|
  {
    if |ins| == 0 then [] else [PyStr(Prepended(index, ins[0]))] + Prefixed(index, ins[1..])
  }

  /**
   * One call of `fire` with room for every input on the output drains the
   * input, emitting each input prefixed with the index, in order; it
   * reports a firing exactly when there was input.
   */
  lemma {:induction false} FireDrains(acts: seq<Action<ReplicaState>>, ins: seq<PyValue>, outs: seq<PyValue>, capacity: nat,
                                      s: ReplicaState, passes: nat, acc: bool)
    requires acts == Priority() && |outs| + |ins| <= capacity && |ins| < passes
    ensures FireLoop(acts, Config(Ports(ins, capacity), Ports(outs, capacity), s), passes, acc)
      == Done(acc || |ins| > 0, Config(Ports([], capacity), Ports(outs + Prefixed(s.index, ins), capacity), s))
  {
    if |ins| == 0 {
      LoopEnds(acts, outs, capacity, s, passes, acc);
      assert outs + Prefixed(s.index, ins) == outs;
    } else {
      var x := PyStr(Prepended(s.index, ins[0]));
      var outs' := outs + [x];
      assert Prefixed(s.index, ins) == [x] + Prefixed(s.index, ins[1..]);
      assert outs' + Prefixed(s.index, ins[1..]) == outs + Prefixed(s.index, ins);
      var drained := Config(Ports([], capacity), Ports(outs + Prefixed(s.index, ins), capacity), s);
      LoopFires(acts, ins, outs, capacity, s, passes, acc);
      FireDrains(acts, ins[1..], outs', capacity, s, passes - 1, true);
      assert FireLoop(acts, Config(Ports(ins[1..], capacity), Ports(outs', capacity), s), passes - 1, true) == Done(true, drained);
    }
  }

  /** The test inputs 1, 2, 3 prefixed with index 0 read "0:1", "0:2", "0:3". */
  lemma TestStrings(ins: seq<PyValue>)
    requires ins == [PyInt(1), PyInt(2), PyInt(3)]
    ensures Prefixed(PyInt(0), ins) == [PyStr("0:1"), PyStr("0:2"), PyStr("0:3")]
  {
    assert DigitChar(0) == '0' && DigitChar(1) == '1' && DigitChar(2) == '2' && DigitChar(3) == '3';
    assert Prepended(PyInt(0), PyInt(1)) == "0:1" && Prepended(PyInt(0), PyInt(2)) == "0:2";
    assert Prepended(PyInt(0), PyInt(3)) == "0:3";
    assert ins[1..] == [PyInt(2), PyInt(3)] && ins[1..][1..] == [PyInt(3)] && ins[1..][1..][1..] == [];
    assert Prefixed(PyInt(0), [PyInt(3)]) == [PyStr("0:3")];
    assert Prefixed(PyInt(0), [PyInt(2), PyInt(3)]) == [PyStr("0:2"), PyStr("0:3")];
  }

  /**
   * The actor's own test vector: inputs 1, 2, 3 yield "0:1", "0:2", "0:3",
   * all in one call of `fire`, which then reports that it fired. Four
   * passes of the loop suffice, and any larger budget gives the same.
   */
  lemma TestSet(capacity: nat, passes: nat)
    requires capacity >= 3 && passes >= 4
    ensures FireSpec(Priority(), TestConfig(capacity), passes)
      == Done(true, Config(Ports([], capacity), Ports([PyStr("0:1"), PyStr("0:2"), PyStr("0:3")], capacity), Init(PyBool(false))))
  {
    var s := Init(PyBool(false));
    var ins := [PyInt(1), PyInt(2), PyInt(3)];
    var outs := [PyStr("0:1"), PyStr("0:2"), PyStr("0:3")];
    TestStrings(ins);
    assert [] + Prefixed(PyInt(0), ins) == outs;
    FireDrains(Priority(), ins, [], capacity, s, passes, false);
  }
}
