/**
 * The first-generation transport client (transport.c): messages travel
 * behind the same 4-byte big-endian length as in the later runtime, and
 * `transport_handle_data` cuts what one receive brings into messages. Until
 * the peer has answered the JOIN request, a message is read as its
 * JOIN_REPLY; afterwards every message goes to the node.
 *
 * The node's message handler, the transport's `disconnect` and `send` and
 * the memory allocator are outside the model: a message for the node and a
 * disconnect are events, and whether a send or an allocation succeeds is a
 * parameter.
 */
module LegacyTransport {
  import opened Wrappers
  import opened Machine
  import opened Text
  import opened CcCommon
  import CcTransport

  /** The client's states, as `transport.c` uses them. */
  datatype TransportState = InterfaceDown | Disconnected | Connected | Pending | Enabled

  /**
   * The receive buffer: empty, a length prefix that arrived in part
   * (`Header`, see `Process`), or `size` bytes of a message allocated and
   * `data` of them received.
   */
  datatype Rx = Idle | Header(bytes: seq<u8>) | Body(data: seq<u8>, size: nat)

  predicate RxValid(rx: Rx)
  {
    match rx
    case Idle => true
    case Header(h) => 0 < |h| < CcTransport.LenPrefixSize
    case Body(d, size) => |d| <= size
  }

  /** What handling data makes happen outside the client. */
  datatype Event =
    | ToNode(msg: seq<u8>)    // `node_handle_message`
    | Joined(peerId: string)  // the JOIN_REPLY was accepted
    | Disconnect              // the JOIN_REPLY was refused and the client disconnects

  datatype Client = Client(state: TransportState, peerId: string, rx: Rx)

  datatype Outcome = Outcome(client: Client, events: seq<Event>)

  /** The events `before` followed by the outcome `o`. */
  function Then(before: seq<Event>, o: Outcome): (r: Outcome)
    ensures r.client == o.client && |r.events| == |before| + |o.events|
  {
    Outcome(o.client, before + o.events)
  }

  lemma ThenThen(a: seq<Event>, b: seq<Event>, o: Outcome)
    ensures Then(a, Then(b, o)) == Then(a + b, o)
  {
    assert a + (b + o.events) == (a + b) + o.events;
  }

  // ---------------------------------------------------------------------
  // The JOIN_REPLY, read as `sscanf` reads it
  // ---------------------------------------------------------------------

  /**
   * A piece of an `sscanf` format: a literal character, a space (which
   * skips any white space, none included), or a `%[^"]` conversion (which
   * takes the longest non-empty run of characters other than '"').
   */
  datatype Piece = Lit(c: char) | Space | Field

  function Lits(s: string): (r: seq<Piece>)
    ensures |r| == |s| && forall i | 0 <= i < |s| :: r[i] == Lit(s[i])
  {
    seq(|s|, i requires 0 <= i < |s| => Lit(s[i]))
  }

  /** `s` without its leading white space. */
  function SkipSpace(s: string): (r: string)
    ensures |r| <= |s| && r == s[|s| - |r|..]
    ensures |r| > 0 ==> !IsSpace(r[0])
  {
    if |s| > 0 && IsSpace(s[0]) then SkipSpace(s[1..]) else s
  }

  /** The leading characters of `s` other than '"'. */
  function NoQuoteRun(s: string): (r: string)
    ensures r <= s && '"' !in r
    ensures |r| < |s| ==> s[|r|] == '"'
  {
    if |s| == 0 || s[0] == '"' then [] else [s[0]] + NoQuoteRun(s[1..])
  }

  /** The fields `sscanf` assigns, in order, before the format first fails to match. */
  function Scan(format: seq<Piece>, s: string): (fields: seq<string>)
    ensures forall i | 0 <= i < |fields| :: |fields[i]| > 0 && '"' !in fields[i]
    decreases |format|
  {
    if |format| == 0 then []
    else match format[0]
      case Lit(c) => if |s| > 0 && s[0] == c then Scan(format[1..], s[1..]) else []
      case Space => Scan(format[1..], SkipSpace(s))
      case Field =>
        var f := NoQuoteRun(s);
        if |f| == 0 then [] else [f] + Scan(format[1..], s[|f|..])
  }

  /** ` "key": "%[^"]` followed by `rest`. */
  function FieldFormat(key: string, rest: seq<Piece>): seq<Piece>
  {
    [Space] + (Lits("\"" + key + "\":") + ([Space] + (Lits("\"") + ([Field] + rest))))
  }

  /** The format `transport_handle_join_reply` hands to `sscanf`. */
  function JoinFormat(): seq<Piece>
  {
    Lits("{\"cmd\":") + ([Space] + (Lits("\"JOIN_REPLY\",")
      + FieldFormat("id", Lits("\",")
      + FieldFormat("serializer", Lits("\",")
      + FieldFormat("sid", Lits("\"}"))))))
  }

  /** ` "key": "value` followed by `rest`. */
  function FieldText(key: string, value: string, rest: string): string
  {
    " " + (("\"" + key + "\":") + (" " + ("\"" + (value + rest))))
  }

  /** A JOIN_REPLY as the peer sends it. */
  function JoinReplyText(id: string, serializer: string, sid: string): string
  {
    "{\"cmd\":" + (" " + ("\"JOIN_REPLY\","
      + FieldText("id", id, "\","
      + FieldText("serializer", serializer, "\","
      + FieldText("sid", sid, "\"}")))))
  }

  /** `SERIALIZER`. */
  const Serializer := "msgpack"

  /**
   * `transport_handle_join_reply` on the text of a message: the peer's id
   * when `sscanf` assigns all three fields and the serializer is
   * "msgpack"; None is the FAIL after which the client disconnects.
   */
  function JoinPeer(text: string): (r: Option<string>)
    ensures r.Some? ==> |r.value| > 0 && '"' !in r.value
  {
    var fields := Scan(JoinFormat(), text);
    if |fields| == 3 && fields[1] == Serializer then Some(fields[0]) else None
  }

  lemma {:induction false} ScanLits(l: string, rest: seq<Piece>, s: string)
    ensures Scan(Lits(l) + rest, l + s) == Scan(rest, s)
    decreases |l|
  {
    if |l| > 0 {
      assert (Lits(l) + rest)[1..] == Lits(l[1..]) + rest;
      assert (l + s)[1..] == l[1..] + s;
      ScanLits(l[1..], rest, s);
    } else {
      assert Lits(l) + rest == rest;
      assert l + s == s;
    }
  }

  lemma ScanSpace(rest: seq<Piece>, s: string)
    requires |s| > 0 && !IsSpace(s[0])
    ensures Scan([Space] + rest, " " + s) == Scan(rest, s)
  {
    assert ([Space] + rest)[0] == Space && ([Space] + rest)[1..] == rest;
    assert (" " + s)[1..] == s;
    assert SkipSpace(" " + s) == SkipSpace(s) == s;
  }

  lemma ScanField(rest: seq<Piece>, f: string, s: string)
    requires |f| > 0 && '"' !in f && |s| > 0 && s[0] == '"'
    ensures Scan([Field] + rest, f + s) == [f] + Scan(rest, s)
  {
    NoQuoteRunStops(f, s);
    assert ([Field] + rest)[1..] == rest;
    assert (f + s)[|f|..] == s;
  }

  lemma {:induction false} NoQuoteRunStops(f: string, s: string)
    requires '"' !in f && |s| > 0 && s[0] == '"'
    ensures NoQuoteRun(f + s) == f
    decreases |f|
  {
    if |f| > 0 {
      assert (f + s)[1..] == f[1..] + s;
      NoQuoteRunStops(f[1..], s);
    } else {
      assert f + s == s;
    }
  }

  lemma ScanFieldFormat(key: string, value: string, rest: seq<Piece>, restText: string)
    requires |value| > 0 && '"' !in value && |restText| > 0 && restText[0] == '"'
    ensures Scan(FieldFormat(key, rest), FieldText(key, value, restText)) == [value] + Scan(rest, restText)
  {
    var k := "\"" + key + "\":";
    ScanSpace(Lits(k) + ([Space] + (Lits("\"") + ([Field] + rest))), k + (" " + ("\"" + (value + restText))));
    ScanLits(k, [Space] + (Lits("\"") + ([Field] + rest)), " " + ("\"" + (value + restText)));
    ScanSpace(Lits("\"") + ([Field] + rest), "\"" + (value + restText));
    ScanLits("\"", [Field] + rest, value + restText);
    ScanField(rest, value, restText);
  }

  /** A JOIN_REPLY whose fields are non-empty and free of '"' scans back to its three fields. */
  lemma JoinReplyRoundTrip(id: string, serializer: string, sid: string)
    requires |id| > 0 && '"' !in id && |serializer| > 0 && '"' !in serializer && |sid| > 0 && '"' !in sid
    ensures Scan(JoinFormat(), JoinReplyText(id, serializer, sid)) == [id, serializer, sid]
  {
    var f1 := FieldFormat("id", Lits("\",") + SerializerFormat());
    var t1 := FieldText("id", id, "\"," + SerializerText(serializer, sid));
    ScanIdField(id, serializer, sid);
    ScanJoinHead(f1, t1);
  }

  /** The fixed start of a JOIN_REPLY, up to its first field, is matched by the literal start of the format. */
  lemma ScanJoinHead(f1: seq<Piece>, t1: string)
    ensures Scan(Lits("{\"cmd\":") + ([Space] + (Lits("\"JOIN_REPLY\",") + f1)), "{\"cmd\":" + (" " + ("\"JOIN_REPLY\"," + t1)))
      == Scan(f1, t1)
  {
    var head := "{\"cmd\":";
    var tag := "\"JOIN_REPLY\",";
    ScanLits(head, [Space] + (Lits(tag) + f1), " " + (tag + t1));
    ScanSpace(Lits(tag) + f1, tag + t1);
    ScanLits(tag, f1, t1);
  }

  lemma ScanIdField(id: string, serializer: string, sid: string)
    requires |id| > 0 && '"' !in id && |serializer| > 0 && '"' !in serializer && |sid| > 0 && '"' !in sid
    ensures Scan(FieldFormat("id", Lits("\",") + SerializerFormat()), FieldText("id", id, "\"," + SerializerText(serializer, sid)))
      == [id, serializer, sid]
  {
    ScanSerializer(serializer, sid);
    ScanFieldFormat("id", id, Lits("\",") + SerializerFormat(), "\"," + SerializerText(serializer, sid));
    ScanLits("\",", SerializerFormat(), SerializerText(serializer, sid));
  }

  function SerializerFormat(): seq<Piece>
  {
    FieldFormat("serializer", Lits("\",") + FieldFormat("sid", Lits("\"}")))
  }

  function SerializerText(serializer: string, sid: string): string
  {
    FieldText("serializer", serializer, "\"," + FieldText("sid", sid, "\"}"))
  }

  lemma ScanSerializer(serializer: string, sid: string)
    requires |serializer| > 0 && '"' !in serializer && |sid| > 0 && '"' !in sid
    ensures Scan(SerializerFormat(), SerializerText(serializer, sid)) == [serializer, sid]
  {
    var f3 := FieldFormat("sid", Lits("\"}"));
    var t3 := FieldText("sid", sid, "\"}");
    ScanSid(sid);
    ScanFieldFormat("serializer", serializer, Lits("\",") + f3, "\"," + t3);
    ScanLits("\",", f3, t3);
  }

  lemma ScanSid(sid: string)
    requires |sid| > 0 && '"' !in sid
    ensures Scan(FieldFormat("sid", Lits("\"}")), FieldText("sid", sid, "\"}")) == [sid]
  {
    ScanFieldFormat("sid", sid, Lits("\"}"), "\"}");
    ScanLits("\"}", [], []);
    assert Lits("\"}") + [] == Lits("\"}") && "\"}" + [] == "\"}";
  }

  /** The peer's JOIN_REPLY with the "msgpack" serializer is accepted and gives its id; any other serializer is refused. */
  lemma JoinReplyAccepted(id: string, serializer: string, sid: string)
    requires |id| > 0 && '"' !in id && |serializer| > 0 && '"' !in serializer && |sid| > 0 && '"' !in sid
    ensures JoinPeer(JoinReplyText(id, serializer, sid)) == (if serializer == Serializer then Some(id) else None)
  {
    JoinReplyRoundTrip(id, serializer, sid);
  }

  // ---------------------------------------------------------------------
  // Cutting received data into messages
  // ---------------------------------------------------------------------

  /** A message's bytes as the characters `sscanf` reads. */
  function AsText(msg: seq<u8>): (t: string)
    ensures |t| == |msg|
  {
    seq(|msg|, i requires 0 <= i < |msg| => msg[i] as int as char)
  }

  /**
   * One complete message: to the node once the client is ENABLED,
   * otherwise read as the JOIN_REPLY, which enables the client and records
   * the peer's id, or makes it disconnect.
   */
  function Deliver(c: Client, msg: seq<u8>): (r: Outcome)
    ensures r.client.rx == c.rx && |r.events| == 1
    ensures c.state == Enabled ==> r == Outcome(c, [ToNode(msg)])
  {
    if c.state == Enabled then Outcome(c, [ToNode(msg)])
    else
      match JoinPeer(AsText(msg))
      case Some(id) => Outcome(c.(state := Enabled, peerId := id), [Joined(id)])
      case None => Outcome(c, [Disconnect])
  }

  function Rank(rx: Rx): nat
  {
    if rx.Body? then 1 else 0
  }

  /**
   * `transport_handle_data` as intended: complete messages are delivered
   * in order, and the start of one that has not fully arrived is kept for
   * the next receive; `allocOk` is whether allocating a receive buffer
   * succeeds (when it does not, the rest of the data is dropped). A length
   * prefix cut by the end of the data is kept too (see
   * `CompleteAsWritten` for the code as written).
   */
  function Process(c: Client, data: seq<u8>, allocOk: bool): Outcome
    requires RxValid(c.rx)
    decreases |data|, Rank(c.rx)
  {
    if |data| == 0 then Outcome(c, [])
    else match c.rx
      case Idle =>
        if |data| < CcTransport.LenPrefixSize then Outcome(c.(rx := Header(data)), [])
        else Frame(c, CcTransport.MessageLen(data) as nat, data[CcTransport.LenPrefixSize..], allocOk)
      case Header(h) =>
        if |h| + |data| < CcTransport.LenPrefixSize then Outcome(c.(rx := Header(h + data)), [])
        else
          var k := CcTransport.LenPrefixSize - |h|;
          Frame(c.(rx := Idle), CcTransport.MessageLen(h + data[..k]) as nat, data[k..], allocOk)
      case Body(d, size) =>
        var need := size - |d|;
        if need <= |data| then
          var o := Deliver(c.(rx := Idle), d + data[..need]);
          Then(o.events, Process(o.client, data[need..], allocOk))
        else Outcome(c.(rx := Body(d + data, size)), [])
  }

  /** A message of `size` bytes whose prefix has been read, with `rest` the data after the prefix. */
  function Frame(c: Client, size: nat, rest: seq<u8>, allocOk: bool): Outcome
    requires c.rx == Idle
    decreases |rest|, 2
  {
    if size <= |rest| then
      var o := Deliver(c, rest[..size]);
      Then(o.events, Process(o.client, rest[size..], allocOk))
    else if !allocOk then Outcome(c, [])
    else Outcome(c.(rx := Body(rest, size)), [])
  }

  lemma ProcessIdle(c: Client, data: seq<u8>, allocOk: bool)
    requires c.rx == Idle && |data| >= CcTransport.LenPrefixSize
    ensures Process(c, data, allocOk)
      == Frame(c, CcTransport.MessageLen(data[..CcTransport.LenPrefixSize]) as nat, data[CcTransport.LenPrefixSize..], allocOk)
  {
    MessageLenOfPrefix(data, data[..CcTransport.LenPrefixSize]);
  }

  lemma ProcessHeader(c: Client, data: seq<u8>, allocOk: bool)
    requires c.rx.Header? && RxValid(c.rx) && |c.rx.bytes| + |data| >= CcTransport.LenPrefixSize
    ensures var k := CcTransport.LenPrefixSize - |c.rx.bytes|;
      Process(c, data, allocOk)
      == Frame(c.(rx := Idle), CcTransport.MessageLen(c.rx.bytes + data[..k]) as nat, data[k..], allocOk)
  {
  }

  lemma ProcessBody(c: Client, data: seq<u8>, allocOk: bool)
    requires c.rx.Body? && RxValid(c.rx) && 0 < |data| && c.rx.size - |c.rx.data| <= |data|
    ensures var need := c.rx.size - |c.rx.data|;
      var o := Deliver(c.(rx := Idle), c.rx.data + data[..need]);
      Process(c, data, allocOk) == Then(o.events, Process(o.client, data[need..], allocOk))
  {
  }

  lemma ProcessKeeps(c: Client, data: seq<u8>, allocOk: bool)
    requires RxValid(c.rx) && 0 < |data|
    ensures c.rx.Idle? && |data| < CcTransport.LenPrefixSize ==>
      Process(c, data, allocOk) == Outcome(c.(rx := Header(data)), [])
    ensures c.rx.Header? && |c.rx.bytes| + |data| < CcTransport.LenPrefixSize ==>
      Process(c, data, allocOk) == Outcome(c.(rx := Header(c.rx.bytes + data)), [])
    ensures c.rx.Body? && |data| < c.rx.size - |c.rx.data| ==>
      Process(c, data, allocOk) == Outcome(c.(rx := Body(c.rx.data + data, c.rx.size)), [])
  {
  }

  lemma FrameComplete(c: Client, size: nat, rest: seq<u8>, allocOk: bool)
    requires c.rx == Idle && size <= |rest|
    ensures var o := Deliver(c, rest[..size]);
      Frame(c, size, rest, allocOk) == Then(o.events, Process(o.client, rest[size..], allocOk))
  {
  }

  /** What the node receives: every message, in order. */
  function ToNodes(msgs: seq<seq<u8>>): (r: seq<Event>)
    ensures |r| == |msgs| && forall i | 0 <= i < |msgs| :: r[i] == ToNode(msgs[i])
  {
    seq(|msgs|, i requires 0 <= i < |msgs| => ToNode(msgs[i]))
  }

  lemma FlatFirst(msgs: seq<seq<u8>>)
    requires |msgs| > 0 && |msgs[0]| < U32
    ensures var data := CcTransport.Flat(msgs);
      |data| >= CcTransport.LenPrefixSize
      && CcTransport.MessageLen(data[..CcTransport.LenPrefixSize]) as int == |msgs[0]|
      && data[CcTransport.LenPrefixSize..] == msgs[0] + CcTransport.Flat(msgs[1..])
  {
    var m := msgs[0];
    var data := CcTransport.Flat(msgs);
    var prefix, body := CcTransport.LengthPrefix(|m|), m + CcTransport.Flat(msgs[1..]);
    assert data == prefix + body;
    CcTransport.LengthPrefixRoundTrip(|m|);
    assert data[..4] == prefix && data[4..] == body;
  }

  /** An enabled client given several framed messages at once delivers each of them, in order, and keeps nothing. */
  lemma {:induction false} FlatDelivered(c: Client, msgs: seq<seq<u8>>, allocOk: bool)
    requires c.state == Enabled && c.rx == Idle
    requires forall i | 0 <= i < |msgs| :: |msgs[i]| < U32
    ensures Process(c, CcTransport.Flat(msgs), allocOk) == Outcome(c, ToNodes(msgs))
    decreases |msgs|
  {
    if |msgs| > 0 {
      var m := msgs[0];
      var data := CcTransport.Flat(msgs);
      var rest := CcTransport.Flat(msgs[1..]);
      FlatFirst(msgs);
      ProcessIdle(c, data, allocOk);
      assert (m + rest)[..|m|] == m && (m + rest)[|m|..] == rest;
      FrameComplete(c, |m|, m + rest, allocOk);
      FlatDelivered(c, msgs[1..], allocOk);
      assert ToNodes(msgs) == [ToNode(m)] + ToNodes(msgs[1..]);
    }
  }

  lemma MessageLenOfPrefix(a: seq<u8>, b: seq<u8>)
    requires |a| >= 4 && |b| >= 4 && a[..4] == b[..4]
    ensures CcTransport.MessageLen(a) == CcTransport.MessageLen(b)
  {
    assert a[0] == b[0] && a[1] == b[1] && a[2] == b[2] && a[3] == b[3];
  }

  /**
   * However a framed message is cut into two receives, even inside its
   * length prefix, an enabled client delivers it exactly once, whole, and
   * is back to an empty receive buffer.
   */
  lemma SplitDelivered(c: Client, m: seq<u8>, j: nat)
    requires c.state == Enabled && c.rx == Idle && |m| < U32
    requires j <= |CcTransport.Framed(m)|
    ensures var f := CcTransport.Framed(m);
      var o1 := Process(c, f[..j], true);
      RxValid(o1.client.rx)
      && var o2 := Process(o1.client, f[j..], true);
      o1.events + o2.events == [ToNode(m)] && o2.client == c
  {
    var f := CcTransport.Framed(m);
    FramedFirst(m);
    if j == 0 || j == |f| {
      assert (f[..j] == [] && f[j..] == f) || (f[..j] == f && f[j..] == []);
      ProcessIdle(c, f, true);
      assert m[..|m|] == m && m[|m|..] == [];
      FrameComplete(c, |m|, m, true);
    } else if j < CcTransport.LenPrefixSize {
      SplitInPrefix(c, m, j);
    } else {
      SplitInBody(c, m, j);
    }
  }

  lemma SplitInPrefix(c: Client, m: seq<u8>, j: nat)
    requires c.state == Enabled && c.rx == Idle && |m| < U32
    requires 0 < j < CcTransport.LenPrefixSize
    ensures var f := CcTransport.Framed(m);
      var c1 := c.(rx := Header(f[..j]));
      Process(c, f[..j], true) == Outcome(c1, [])
      && Process(c1, f[j..], true) == Outcome(c, [ToNode(m)])
  {
    var f := CcTransport.Framed(m);
    FramedFirst(m);
    var c1 := c.(rx := Header(f[..j]));
    var data := f[j..];
    var k := CcTransport.LenPrefixSize - j;
    ProcessHeader(c1, data, true);
    assert f[..j] + data[..k] == f[..CcTransport.LenPrefixSize];
    assert data[k..] == m;
    assert m[..|m|] == m && m[|m|..] == [];
    FrameComplete(c, |m|, m, true);
  }

  lemma SplitInBody(c: Client, m: seq<u8>, j: nat)
    requires c.state == Enabled && c.rx == Idle && |m| < U32
    requires CcTransport.LenPrefixSize <= j < |CcTransport.Framed(m)|
    ensures var f := CcTransport.Framed(m);
      var c1 := c.(rx := Body(m[..j - CcTransport.LenPrefixSize], |m|));
      Process(c, f[..j], true) == Outcome(c1, [])
      && Process(c1, f[j..], true) == Outcome(c, [ToNode(m)])
  {
    var f := CcTransport.Framed(m);
    FramedFirst(m);
    var a := f[..j];
    var i := j - CcTransport.LenPrefixSize;
    assert a[..CcTransport.LenPrefixSize] == f[..CcTransport.LenPrefixSize];
    ProcessIdle(c, a, true);
    assert a[CcTransport.LenPrefixSize..] == m[..i];
    var c1 := c.(rx := Body(m[..i], |m|));
    var data := f[j..];
    ProcessBody(c1, data, true);
    assert m[..i] + data[..|data|] == m;
    assert data[|data|..] == [];
  }

  lemma FramedFirst(m: seq<u8>)
    requires |m| < U32
    ensures var f := CcTransport.Framed(m);
      |f| >= CcTransport.LenPrefixSize
      && CcTransport.MessageLen(f[..CcTransport.LenPrefixSize]) as int == |m|
      && f[CcTransport.LenPrefixSize..] == m
  {
    var f := CcTransport.Framed(m);
    CcTransport.LengthPrefixRoundTrip(|m|);
    assert f[..4] == CcTransport.LengthPrefix(|m|);
  }

  /** The modulus of size_t on a 64-bit target. */
  const SizeMod: int := 0x1_0000_0000_0000_0000

  /**
   * The completeness test of `transport_handle_data` as written:
   * `msg_size <= len - read_pos` with `len` a size_t, so that a position
   * moved past the end of the data makes the difference wrap.
   */
  predicate CompleteAsWritten(msgSize: u32, len: nat, readPos: nat)
  {
    msgSize as int <= (len - readPos) % SizeMod
  }

  /**
   * A receive of 2 bytes while no message is being reassembled: the code
   * as written reads a prefix of 4 bytes, moves past the end of the data,
   * and then takes a message of any length as complete, reading it from
   * beyond the received bytes; `Process` keeps the 2 bytes until the rest
   * of the prefix arrives.
   */
  lemma ShortPrefixTreatedComplete(c: Client, b0: u8, b1: u8, msgSize: u32, allocOk: bool)
    requires c.rx == Idle
    ensures CompleteAsWritten(msgSize, 2, 0 + CcTransport.LenPrefixSize)
    ensures Process(c, [b0, b1], allocOk) == Outcome(c.(rx := Header([b0, b1])), [])
  {
  }

  // ---------------------------------------------------------------------
  // The client
  // ---------------------------------------------------------------------

  /** A transmit buffer: its capacity, and the position and size of what it holds. */
  datatype TxBuffer = TxBuffer(capacity: nat, pos: nat, size: nat)

  class TransportClient {
    var state: TransportState
    var peerId: string
    var rx: Rx
    var tx: Option<TxBuffer>

    function Snapshot(): Client
      reads this
    {
      Client(state, peerId, rx)
    }

    constructor(state: TransportState)
      ensures this.state == state && peerId == [] && rx == Idle && tx == None
    {
      this.state := state;
      peerId := [];
      rx := Idle;
      tx := None;
    }

    /** `transport_handle_join_reply`, or the node's handler once the client is ENABLED. */
    method HandleMessage(msg: seq<u8>) returns (e: Event)
      modifies this`state, this`peerId
      ensures Outcome(Snapshot(), [e]) == Deliver(old(Snapshot()), msg)
    {
      if state == Enabled {
        return ToNode(msg);
      }
      var fields := Scan(JoinFormat(), AsText(msg));
      if |fields| != 3 || fields[1] != Serializer {
        return Disconnect;
      }
      state := Enabled;
      peerId := fields[0];
      e := Joined(peerId);
    }

    /** `transport_handle_data`, with the prefix cut by the end of the data kept rather than read past. */
    method HandleData(data: seq<u8>, allocOk: bool) returns (events: seq<Event>)
      requires RxValid(rx)
      modifies this`state, this`peerId, this`rx
      ensures RxValid(rx)
      ensures Outcome(Snapshot(), events) == Process(old(Snapshot()), data, allocOk)
    {
      ghost var c0 := Snapshot();
      events := [];
      var pos := 0;
      assert data[0..] == data;
      while pos < |data|
        invariant pos <= |data| && RxValid(rx)
        invariant Process(c0, data, allocOk) == Then(events, Process(Snapshot(), data[pos..], allocOk))
        decreases |data| - pos, Rank(rx)
      {
        var more, next := Step(data, pos, allocOk);
        ThenThen(events, more, Process(Snapshot(), data[next..], allocOk));
        events, pos := events + more, next;
      }
    }

    /** One round of the loop of `transport_handle_data`, from position `pos`. */
    method Step(data: seq<u8>, pos: nat, allocOk: bool) returns (events: seq<Event>, next: nat)
      requires pos < |data| && RxValid(rx)
      modifies this`state, this`peerId, this`rx
      ensures pos <= next <= |data| && RxValid(rx)
      ensures next > pos || (old(rx).Body? && rx == Idle)
      ensures Process(old(Snapshot()), data[pos..], allocOk) == Then(events, Process(Snapshot(), data[next..], allocOk))
    {
      if rx.Body? {
        events, next := TakeRest(data, pos, allocOk);
        return;
      }
      ghost var d := data[pos..];
      ghost var c := Snapshot();
      if rx.Idle? && |data| - pos < CcTransport.LenPrefixSize {
        rx := Header(data[pos..]);
        ProcessKeeps(c, d, allocOk);
        return [], |data|;
      } else if rx.Header? && |rx.bytes| + |data| - pos < CcTransport.LenPrefixSize {
        rx := Header(rx.bytes + data[pos..]);
        ProcessKeeps(c, d, allocOk);
        return [], |data|;
      }
      var size, start := ReadPrefix(data, pos, allocOk);
      events, next := TakeFrame(data, start, size, allocOk);
    }

    /** The rest of a message being reassembled, from position `pos`: the message is delivered when the data completes it, otherwise the data is added to it. */
    method TakeRest(data: seq<u8>, pos: nat, allocOk: bool) returns (events: seq<Event>, next: nat)
      requires pos < |data| && rx.Body? && RxValid(rx)
      modifies this`state, this`peerId, this`rx
      ensures pos <= next <= |data| && RxValid(rx)
      ensures next > pos || rx == Idle
      ensures Process(old(Snapshot()), data[pos..], allocOk) == Then(events, Process(Snapshot(), data[next..], allocOk))
    {
      ghost var d := data[pos..];
      ghost var c := Snapshot();
      var need := rx.size - |rx.data|;
      if need <= |data| - pos {
        ProcessBody(c, d, allocOk);
        var msg := rx.data + data[pos..pos + need];
        assert d[..need] == data[pos..pos + need];
        rx := Idle;
        var e := HandleMessage(msg);
        assert d[need..] == data[pos + need..];
        return [e], pos + need;
      }
      rx := Body(rx.data + data[pos..], rx.size);
      ProcessKeeps(c, d, allocOk);
      return [], |data|;
    }

    /** The length prefix at `pos`, completing a partial one kept from before. */
    method ReadPrefix(data: seq<u8>, pos: nat, ghost allocOk: bool) returns (size: nat, start: nat)
      requires pos <= |data| && (rx.Idle? || rx.Header?) && RxValid(rx)
      requires |data| - pos >= CcTransport.LenPrefixSize - (if rx.Header? then |rx.bytes| else 0)
      modifies this`rx
      ensures rx == Idle && pos < start <= |data|
      ensures Process(old(Snapshot()), data[pos..], allocOk) == Frame(Snapshot(), size, data[start..], allocOk)
    {
      ghost var d, c := data[pos..], Snapshot();
      if rx.Idle? {
        ProcessIdle(c, d, allocOk);
        assert d[..CcTransport.LenPrefixSize] == data[pos..pos + CcTransport.LenPrefixSize];
        assert d[CcTransport.LenPrefixSize..] == data[pos + CcTransport.LenPrefixSize..];
        size := CcTransport.MessageLen(data[pos..pos + CcTransport.LenPrefixSize]) as nat;
        start := pos + CcTransport.LenPrefixSize;
      } else {
        var h := rx.bytes;
        var k := CcTransport.LenPrefixSize - |h|;
        ProcessHeader(c, d, allocOk);
        assert d[..k] == data[pos..pos + k] && d[k..] == data[pos + k..];
        size := CcTransport.MessageLen(h + data[pos..pos + k]) as nat;
        start := pos + k;
        rx := Idle;
        assert Snapshot() == c.(rx := Idle);
      }
    }

    /** A message of `size` bytes starting at `start`: delivered when complete, otherwise kept in a new receive buffer, or dropped when none can be allocated. */
    method TakeFrame(data: seq<u8>, start: nat, size: nat, allocOk: bool) returns (events: seq<Event>, next: nat)
      requires start <= |data| && rx == Idle
      modifies this`state, this`peerId, this`rx
      ensures start <= next <= |data| && RxValid(rx)
      ensures Frame(old(Snapshot()), size, data[start..], allocOk) == Then(events, Process(Snapshot(), data[next..], allocOk))
    {
      ghost var c := Snapshot();
      if size <= |data| - start {
        FrameComplete(c, size, data[start..], allocOk);
        var msg := data[start..start + size];
        assert data[start..][..size] == msg && data[start..][size..] == data[start + size..];
        var e := HandleMessage(msg);
        return [e], start + size;
      }
      if allocOk {
        rx := Body(data[start..], size);
      }
      return [], |data|;
    }

    /** `transport_create_tx_buffer`: PENDING while a buffer exists, FAIL when the allocation fails, otherwise an empty buffer of `size` bytes. */
    method CreateTxBuffer(size: nat, allocOk: bool) returns (r: CcResult)
      modifies this`tx
      ensures old(tx).Some? ==> r == PendingResult && tx == old(tx)
      ensures old(tx).None? && !allocOk ==> r == Fail && tx == None
      ensures old(tx).None? && allocOk ==> r == Success && tx == Some(TxBuffer(size, 0, 0))
    {
      if tx.Some? {
        return PendingResult;
      }
      if !allocOk {
        return Fail;
      }
      tx := Some(TxBuffer(size, 0, 0));
      r := Success;
    }

    /**
     * `transport_create_rx_buffer`: PENDING while a buffer exists, FAIL
     * when the allocation fails, otherwise an empty buffer of `size` bytes
     * whose position and expected size are 0. A partial length prefix
     * kept by `HandleData` counts as a buffer in use.
     */
    method CreateRxBuffer(size: nat, allocOk: bool) returns (r: CcResult)
      modifies this`rx
      ensures old(rx) != Idle ==> r == PendingResult && rx == old(rx)
      ensures old(rx) == Idle && !allocOk ==> r == Fail && rx == Idle
      ensures old(rx) == Idle && allocOk ==> r == Success && rx == Body([], 0)
    {
      if rx != Idle {
        return PendingResult;
      }
      if !allocOk {
        return Fail;
      }
      rx := Body([], 0);
      r := Success;
    }

    /** `transport_free_tx_buffer`. */
    method FreeTxBuffer()
      modifies this`tx
      ensures tx == None
    {
      tx := None;
    }

    /** `transport_free_rx_buffer`. */
    method FreeRxBuffer()
      modifies this`rx
      ensures rx == Idle
    {
      rx := Idle;
    }

    /** `transport_join`: once the JOIN request is sent the client is PENDING; otherwise it disconnects (`disconnect` is true). */
    method Join(sent: bool) returns (disconnect: bool)
      modifies this`state
      ensures disconnect <==> !sent
      ensures state == (if sent then Pending else old(state))
    {
      if sent {
        state := Pending;
        return false;
      }
      return true;
    }
  }
}
