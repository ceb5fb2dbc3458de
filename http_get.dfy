/**
 * The Python actor HTTPGet (libmpy/modules/actors/net/HTTPGet.py): four
 * guarded actions that send a request, collect the reply, and emit it with
 * or without a body.
 *
 * The `http.get` capability object is seen through what the guards and
 * bodies observe of it: whether it accepts a write, the replies waiting to
 * be read, and the requests written so far.
 */
module HttpGet {
  import opened Wrappers
  import opened ActorPy

  /** The capability object `self.cmd`. */
  datatype Command = Command(writable: bool, replies: seq<PyValue>, sent: seq<PyValue>)

  /** The actor's attributes: the capability object and the stored response (None when there is none). */
  datatype HttpState = HttpState(cmd: Command, response: PyValue)

  /** `init`: the capability is opened by the caller; no response is stored yet. */
  function Init(cmd: Command): (s: HttpState)
    ensures s.cmd == cmd && s.response == PyNone && !Truthy(s.response)
  {
    HttpState(cmd, PyNone)
  }

  function Arg(args: seq<PyValue>, i: nat): PyValue
  {
    if i < |args| then args[i] else PyNone
  }

  /** The dict `new_request` writes to the capability. */
  function Request(url: PyValue, params: PyValue, headers: PyValue, auth: PyValue): PyValue
  {
    PyDict(map["url" := url, "params" := params, "headers" := headers, "auth" := auth])
  }

  predicate CanWrite(s: HttpState) { s.cmd.writable }
  predicate CanRead(s: HttpState) { |s.cmd.replies| > 0 }
  predicate HasBody(s: HttpState) { Truthy(s.response) && Truthy(Get(s.response, "body")) }
  predicate HasNoBody(s: HttpState) { Truthy(s.response) && !Truthy(Get(s.response, "body")) }

  const Inputs: seq<PortName> := ["URL", "params", "headers", "auth"]

  /** Every input of `new_request` has a token waiting and none peeked. */
  predicate InputsReady(ins: map<PortName, Queue>)
  {
    forall p | p in Inputs :: p in ins && ins[p].TokenAvailable() && ins[p].peeked == 0
  }

  lemma InputsReadyMeans(ins: map<PortName, Queue>)
    requires InputsReady(ins)
    ensures InputOk(ins, Inputs) && Unpeeked(ins, Inputs)
  {
    forall i | 0 <= i < |Inputs| ensures Inputs[i] in ins && ins[Inputs[i]].TokenAvailable() && ins[Inputs[i]].peeked == 0 {
      assert Inputs[i] in Inputs;
    }
  }

  /** `new_request`: guarded by `can_write`, consumes one token per input port and writes the request. */
  function NewRequest(): Action<HttpState>
  {
    Action(Inputs, [], Some(CanWrite),
      (s: HttpState, args: seq<PyValue>) =>
        (s.(cmd := s.cmd.(sent := s.cmd.sent + [Request(Arg(args, 0), Arg(args, 1), Arg(args, 2), Arg(args, 3))])), None))
  }

  /** `handle_reply`: guarded by `can_read`, uses no port and stores what it reads. */
  function HandleReply(): Action<HttpState>
  {
    Action([], [], Some(CanRead),
      (s: HttpState, args: seq<PyValue>) =>
        if |s.cmd.replies| > 0 then (s.(cmd := s.cmd.(replies := s.cmd.replies[1..]), response := s.cmd.replies[0]), None)
        else (s, None))
  }

  /** `reply_with_body`: emits status, headers and body, and clears the response. */
  function ReplyWithBody(): Action<HttpState>
  {
    Action([], ["status", "headers", "data"], Some(HasBody),
      (s: HttpState, args: seq<PyValue>) =>
        (s.(response := PyNone), Some([Get(s.response, "status"), Get(s.response, "headers"), Get(s.response, "body")])))
  }

  /** `reply_without_body`: emits status and headers, and clears the response. */
  function ReplyWithoutBody(): Action<HttpState>
  {
    Action([], ["status", "headers"], Some(HasNoBody),
      (s: HttpState, args: seq<PyValue>) =>
        (s.(response := PyNone), Some([Get(s.response, "status"), Get(s.response, "headers")])))
  }

  /** `action_priority`. */
  function Priority(): seq<Action<HttpState>>
  {
    [NewRequest(), HandleReply(), ReplyWithBody(), ReplyWithoutBody()]
  }

  /** `@manage()` without lists: the managed attributes are the two that `init` adds. */
  method ManagedAfterInit(before: set<string>) returns (managed: set<string>)
    requires "cmd" !in before && "response" !in before
    ensures managed == {"cmd", "response"}
  {
    var w := Manage(NoArg, NoArg);
    managed := w.value.Call(before, before + {"cmd", "response"});
  }

  /** The two reply actions are never both eligible, and one of them is whenever a response is stored. */
  lemma ReplyGuardsExclusive(s: HttpState)
    ensures !(HasBody(s) && HasNoBody(s))
    ensures Truthy(s.response) <==> HasBody(s) || HasNoBody(s)
  {
  }

  /**
   * The guard of `new_request` is checked before its ports: when the
   * capability refuses writes, nothing is consumed even if every input
   * has a token.
   */
  lemma NewRequestGuardFirst(c: Config<HttpState>)
    requires !CanWrite(c.state)
    ensures ActionSpec(NewRequest(), c) == (Outcome(false, true, {}), c)
  {
    FalseGuardTouchesNothing(NewRequest(), c);
  }

  /**
   * With a writable capability and a token on each of the four inputs,
   * `new_request` fires, exhausting its four inputs, and leaves every
   * out-port alone.
   */
  lemma NewRequestFires(c: Config<HttpState>)
    requires CanWrite(c.state) && InputsReady(c.inPorts)
    ensures ActionSpec(NewRequest(), c).0 == Outcome(true, true, {"URL", "params", "headers", "auth"})
    ensures ActionSpec(NewRequest(), c).1.outPorts == c.outPorts
  {
    var a := NewRequest();
    assert Distinct(Inputs);
    assert OutputOk(c.outPorts, a.outputs);
    InputsReadyMeans(c.inPorts);
    ValidProductionCommitsAndWrites(a, c);
    assert (set p | p in Inputs) == {"URL", "params", "headers", "auth"};
  }

  /** When `new_request` fires it consumes exactly the oldest token of each input. */
  lemma NewRequestConsumes(c: Config<HttpState>)
    requires CanWrite(c.state) && InputsReady(c.inPorts)
    ensures forall p | p in Inputs ::
      ActionSpec(NewRequest(), c).1.inPorts[p] == c.inPorts[p].(tokens := c.inPorts[p].tokens[1..])
  {
    var a := NewRequest();
    assert Distinct(Inputs);
    assert OutputOk(c.outPorts, a.outputs);
    InputsReadyMeans(c.inPorts);
    ValidProductionCommitsAndWrites(a, c);
    forall p | p in Inputs
      ensures ActionSpec(a, c).1.inPorts[p] == c.inPorts[p].(tokens := c.inPorts[p].tokens[1..])
    {
      var k :| 0 <= k < |Inputs| && Inputs[k] == p;
    }
  }

  /** The request `new_request` writes is built from the oldest token of each input, in port order. */
  lemma NewRequestSends(c: Config<HttpState>)
    requires CanWrite(c.state) && InputsReady(c.inPorts)
    ensures ActionSpec(NewRequest(), c).1.state.cmd.sent == c.state.cmd.sent + [Request(
      c.inPorts["URL"].tokens[0], c.inPorts["params"].tokens[0],
      c.inPorts["headers"].tokens[0], c.inPorts["auth"].tokens[0])]
  {
    var a := NewRequest();
    assert Distinct(Inputs);
    assert OutputOk(c.outPorts, a.outputs);
    InputsReadyMeans(c.inPorts);
    ValidProductionCommitsAndWrites(a, c);
    NewRequestArgs(c);
    var args := PeekAll(c.inPorts, Inputs).0;
    assert ActionSpec(a, c).1.state == a.body(c.state, args).0;
    assert Arg(args, 0) == args[0] && Arg(args, 1) == args[1] && Arg(args, 2) == args[2] && Arg(args, 3) == args[3];
  }

  lemma NewRequestArgs(c: Config<HttpState>)
    requires InputsReady(c.inPorts)
    ensures PeekAll(c.inPorts, Inputs).0 == [c.inPorts["URL"].tokens[0], c.inPorts["params"].tokens[0],
      c.inPorts["headers"].tokens[0], c.inPorts["auth"].tokens[0]]
  {
    assert Distinct(Inputs);
    InputsReadyMeans(c.inPorts);
    PeekAllArgs(c.inPorts, Inputs);
    var args := PeekAll(c.inPorts, Inputs).0;
    assert Inputs[0] == "URL" && Inputs[1] == "params" && Inputs[2] == "headers" && Inputs[3] == "auth";
    assert args[0] == c.inPorts[Inputs[0]].tokens[c.inPorts[Inputs[0]].peeked];
    assert args[1] == c.inPorts[Inputs[1]].tokens[c.inPorts[Inputs[1]].peeked];
    assert args[2] == c.inPorts[Inputs[2]].tokens[c.inPorts[Inputs[2]].peeked];
    assert args[3] == c.inPorts[Inputs[3]].tokens[c.inPorts[Inputs[3]].peeked];
  }

  /** `handle_reply` fires whenever the capability has a reply, stores it, and touches no port. */
  lemma HandleReplyStores(c: Config<HttpState>)
    requires CanRead(c.state)
    ensures ActionSpec(HandleReply(), c).0 == Outcome(true, true, {})
    ensures ActionSpec(HandleReply(), c).1.inPorts == c.inPorts
    ensures ActionSpec(HandleReply(), c).1.outPorts == c.outPorts
    ensures ActionSpec(HandleReply(), c).1.state.response == c.state.cmd.replies[0]
    ensures ActionSpec(HandleReply(), c).1.state.cmd.replies == c.state.cmd.replies[1..]
  {
    assert (set p: PortName | p in []) == {};
  }

  /**
   * With a stored response that has a body and room on the three outputs,
   * `reply_with_body` emits its status, headers and body, one per port,
   * and clears the response.
   */
  lemma ReplyWithBodyEmits(c: Config<HttpState>)
    requires HasBody(c.state) && OutputOk(c.outPorts, ["status", "headers", "data"])
    requires "status" in c.outPorts && "headers" in c.outPorts && "data" in c.outPorts
    ensures ActionSpec(ReplyWithBody(), c).0 == Outcome(true, true, {})
    ensures ActionSpec(ReplyWithBody(), c).1.inPorts == c.inPorts
    ensures ActionSpec(ReplyWithBody(), c).1.outPorts["status"].tokens == c.outPorts["status"].tokens + [Get(c.state.response, "status")]
    ensures ActionSpec(ReplyWithBody(), c).1.outPorts["headers"].tokens == c.outPorts["headers"].tokens + [Get(c.state.response, "headers")]
    ensures ActionSpec(ReplyWithBody(), c).1.outPorts["data"].tokens == c.outPorts["data"].tokens + [Get(c.state.response, "body")]
    ensures ActionSpec(ReplyWithBody(), c).1.state.response == PyNone
  {
    var a := ReplyWithBody();
    assert Distinct(a.outputs);
    assert (set p: PortName | p in []) == {};
    ValidProductionCommitsAndWrites(a, c);
    assert a.outputs[0] == "status" && a.outputs[1] == "headers" && a.outputs[2] == "data";
  }

  /** `reply_without_body` emits status and headers, leaves the data port alone, and clears the response. */
  lemma ReplyWithoutBodyEmits(c: Config<HttpState>)
    requires HasNoBody(c.state) && OutputOk(c.outPorts, ["status", "headers"])
    requires "status" in c.outPorts && "headers" in c.outPorts
    ensures ActionSpec(ReplyWithoutBody(), c).0 == Outcome(true, true, {})
    ensures ActionSpec(ReplyWithoutBody(), c).1.inPorts == c.inPorts
    ensures ActionSpec(ReplyWithoutBody(), c).1.outPorts["status"].tokens == c.outPorts["status"].tokens + [Get(c.state.response, "status")]
    ensures ActionSpec(ReplyWithoutBody(), c).1.outPorts["headers"].tokens == c.outPorts["headers"].tokens + [Get(c.state.response, "headers")]
    ensures "data" in c.outPorts ==> ActionSpec(ReplyWithoutBody(), c).1.outPorts["data"] == c.outPorts["data"]
    ensures ActionSpec(ReplyWithoutBody(), c).1.state.response == PyNone
  {
    var a := ReplyWithoutBody();
    assert Distinct(a.outputs);
    assert (set p: PortName | p in []) == {};
    ValidProductionCommitsAndWrites(a, c);
    assert a.outputs[0] == "status" && a.outputs[1] == "headers";
  }

  /**
   * Priority: a pending request is always served before a reply is
   * collected or emitted; when a pass fires anything else, `new_request`
   * could not fire.
   */
  lemma NewRequestFirst(c: Config<HttpState>)
    requires CanWrite(c.state) && InputsReady(c.inPorts)
    ensures PassSpec(Priority(), c, 0).Fired? && PassSpec(Priority(), c, 0).index == 0
  {
    NewRequestFires(c);
  }
}
