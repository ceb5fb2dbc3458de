/**
 * Framing of runtime-to-runtime messages (runtime/north/cc_transport.c):
 * every message travels behind a 4-byte big-endian length, and
 * `transport_handle_data` cuts what one receive brings into messages,
 * keeping a message that has not fully arrived in the client's receive
 * buffer until its last byte comes.
 *
 * The transport's `recv` and `send`, the message handler and the memory
 * allocator are outside this model: what each receive returns, what
 * `send` reports, whether the handler accepts a message and whether the
 * allocation succeeds are parameters.
 */
module CcTransport {
  import opened Wrappers
  import opened Machine
  import opened Text
  import opened CcCommon

  /** `CC_TRANSPORT_LEN_PREFIX_SIZE`. */
  const LenPrefixSize := 4
  /** `CC_TRANSPORT_RX_BUFFER_SIZE`: the stack buffer one receive fills when no message is being reassembled. */
  const RxBufferSize := 512

  /** `transport_get_message_len`: the first four bytes read as a big-endian number. */
  function MessageLen(b: seq<u8>): (r: u32)
    requires |b| >= LenPrefixSize
  {
    (((b[0] as int * 256 + b[1] as int) * 256 + b[2] as int) * 256 + b[3] as int) as u32
  }

  /** `transport_set_length_prefix`: the four bytes `size >> 24`, `size >> 16`, `size >> 8` and `size`, each cut to its low eight bits. */
  function LengthPrefix(size: nat): (b: seq<u8>)
    ensures |b| == LenPrefixSize
  {
    var n1 := size / 256;
    var n2 := n1 / 256;
    [((n2 / 256) % 256) as u8, (n2 % 256) as u8, (n1 % 256) as u8, (size % 256) as u8]
  }

  /** The prefix is only the size's low 32 bits: a size below 2^32 reads back unchanged. */
  lemma LengthPrefixRoundTrip(size: nat)
    ensures MessageLen(LengthPrefix(size)) as int == size % U32
  {
    var n1 := size / 256;
    var n2 := n1 / 256;
    var n3 := n2 / 256;
    assert size == n1 * 256 + size % 256;
    assert n1 == n2 * 256 + n1 % 256;
    assert n2 == n3 * 256 + n2 % 256;
    var low := size % U32;
    var q := n3 / 256;
    assert n3 == q * 256 + n3 % 256;
    assert size == ((n3 * 256 + n2 % 256) * 256 + n1 % 256) * 256 + size % 256;
    assert size == q * U32 + (((n3 % 256) * 256 + n2 % 256) * 256 + n1 % 256) * 256 + size % 256;
    DivModUnique(size, U32, q, (((n3 % 256) * 256 + n2 % 256) * 256 + n1 % 256) * 256 + size % 256);
  }

  /** Any four bytes are the prefix of the length they encode. */
  lemma MessageLenRoundTrip(b: seq<u8>)
    requires |b| >= LenPrefixSize
    ensures LengthPrefix(MessageLen(b) as nat) == b[..LenPrefixSize]
  {
    var size := MessageLen(b) as int;
    var n2 := b[0] as int * 256 + b[1] as int;
    var n1 := n2 * 256 + b[2] as int;
    assert size == n1 * 256 + b[3] as int;
    DivModUnique(size, 256, n1, b[3] as int);
    DivModUnique(n1, 256, n2, b[2] as int);
    DivModUnique(n2, 256, b[0] as int, b[1] as int);
    DivModUnique(b[0] as int, 256, 0, b[0] as int);
  }

  /** A message as it travels: its length, then its bytes. */
  function Framed(msg: seq<u8>): seq<u8>
  {
    LengthPrefix(|msg|) + msg
  }

  /** Several messages sent one after another. */
  function Flat(msgs: seq<seq<u8>>): seq<u8>
  {
    if |msgs| == 0 then [] else Framed(msgs[0]) + Flat(msgs[1..])
  }

  /** Several receives' bytes, one after another. */
  function Concat(chunks: seq<seq<u8>>): seq<u8>
  {
    if |chunks| == 0 then [] else chunks[0] + Concat(chunks[1..])
  }

  /**
   * `transport_send`: the first four bytes of `buffer` become the length of
   * the `size - 4` bytes after them, and the send succeeds exactly when the
   * transport reports (`reported`) all `size` bytes sent.
   */
  method Send(buffer: array<u8>, size: int, reported: int) returns (r: CcResult)
    requires buffer.Length >= LenPrefixSize
    modifies buffer
    ensures buffer[..LenPrefixSize] == LengthPrefix((size - LenPrefixSize) % U32)
    ensures buffer[LenPrefixSize..] == old(buffer[LenPrefixSize..])
    ensures r == Success <==> reported == size
  {
    var prefix := LengthPrefix((size - LenPrefixSize) % U32);
    buffer[0], buffer[1], buffer[2], buffer[3] := prefix[0], prefix[1], prefix[2], prefix[3];
    r := if reported == size then Success else Fail;
  }

  /** What a receiver reads back from the prefix `Send` wrote for a buffer of `size` bytes. */
  lemma SentLengthRead(size: int)
    requires LenPrefixSize <= size < U32
    ensures MessageLen(LengthPrefix((size - LenPrefixSize) % U32)) as int == size - LenPrefixSize
  {
    var n := size - LenPrefixSize;
    assert n % U32 == n;
    LengthPrefixRoundTrip(n);
  }

  /** A message being reassembled, `cc_transport_buffer_t`: the `pos` bytes received so far and the announced `size`. */
  datatype Partial = Partial(data: seq<u8>, size: nat)

  /** What one call hands to the handler, returns, and leaves in the receive buffer. */
  datatype Outcome = Outcome(handled: seq<seq<u8>>, result: CcResult, rx: Option<Partial>)

  function Prepend(handled: seq<seq<u8>>, o: Outcome): Outcome
  {
    o.(handled := handled + o.handled)
  }

  /** A handler's verdict as a result code. */
  function Verdict(ok: bool): CcResult
  {
    if ok then Success else Fail
  }

  /** A receive asked for at most `room` bytes returns at most that many of what arrived. */
  function Take(chunk: seq<u8>, room: nat): (c: seq<u8>)
    ensures c <= chunk && |c| <= room
  {
    if |chunk| <= room then chunk else chunk[..room]
  }

  /** A partial message still has bytes to come. */
  predicate Open(rx: Option<Partial>)
  {
    rx.Some? ==> |rx.value.data| < rx.value.size
  }

  /**
   * What the reassembled message hands the handler. As written the size
   * passed is the local `msg_size`, which is only set when this call
   * decoded the prefix (`sizeSeen` Some); otherwise the whole buffer goes.
   */
  function Delivered(data: seq<u8>, sizeSeen: Option<nat>): seq<u8>
  {
    match sizeSeen
    case None => data
    case Some(n) => if n <= |data| then data[..n] else data
  }

  /**
   * One call of `transport_handle_data` from the point where a receive is
   * due: with a message being reassembled the receive goes into its buffer,
   * otherwise into the stack buffer, whose messages are then cut out.
   * `chunks` are what the successive receives return (an empty one, or none
   * left, is a receive of no bytes). `sizeSeen` is None for the intended
   * behaviour and carries the local `msg_size` for the code as written.
   */
  function Receive(rx: Option<Partial>, chunks: seq<seq<u8>>, accepts: seq<u8> -> bool, allocOk: bool, sizeSeen: Option<nat>): (o: Outcome)
    requires Open(rx)
    ensures Open(o.rx)
    decreases |chunks|, 1, 0
  {
    if |chunks| == 0 then Outcome([], Fail, rx)
    else match rx
      case Some(p) =>
        match Fill(p, chunks[0]) {
          case Starved => Outcome([], Fail, rx)
          case Complete(data) =>
            var msg := Delivered(data, sizeSeen);
            Outcome([msg], Verdict(accepts(msg)), None)
          case Grown(q) => Receive(Some(q), chunks[1..], accepts, allocOk, sizeSeen)
        }
      case None =>
        var c := Take(chunks[0], RxBufferSize);
        if |c| == 0 then Outcome([], Fail, rx)
        else Frames(c, chunks[1..], accepts, allocOk, sizeSeen)
  }

  /** What a receive into the buffer of a message being reassembled does to it. */
  datatype Filled = Starved | Complete(data: seq<u8>) | Grown(q: Partial)

  /**
   * A receive into a message's buffer asks for the bytes still missing: none
   * received leaves it as it was, the last missing ones complete it, and
   * fewer leave it open with more bytes.
   */
  function Fill(p: Partial, chunk: seq<u8>): (f: Filled)
    requires Open(Some(p))
    ensures f.Complete? ==> |f.data| == p.size && p.data <= f.data
    ensures f.Grown? ==> Open(Some(f.q)) && f.q.size == p.size && p.data < f.q.data
  {
    var c := Take(chunk, p.size - |p.data|);
    if |c| == 0 then Starved
    else if |p.data + c| == p.size then Complete(p.data + c)
    else Grown(Partial(p.data + c, p.size))
  }

  /** The decision `transport_handle_data` takes on the bytes at `read_pos` in the stack buffer. */
  datatype Step =
    | Stop(handled: seq<seq<u8>>, result: CcResult)   // the call ends
    | Reassemble(p: Partial)                          // the message continues in later receives
    | Next(msg: seq<u8>, rest: seq<u8>)               // a whole message was accepted; more bytes follow

  /**
   * The bytes `data` start with a length: a message that ends exactly at
   * the end of `data` is the last and the handler's verdict ends the call;
   * one that ends before it is handed over and, if accepted, the cutting
   * goes on after it; one that ends beyond it is kept for reassembly when
   * memory for it is had. Fewer than four bytes, or a length of 2^31 or
   * more, is where the code reads past the received bytes; the model stops
   * there with a failure.
   */
  function FrameStep(data: seq<u8>, accepts: seq<u8> -> bool, allocOk: bool): (s: Step)
    ensures s.Next? ==> |s.rest| < |data|
    ensures s.Reassemble? ==> Open(Some(s.p))
  {
    if |data| < LenPrefixSize then Stop([], Fail)
    else
      var n := MessageLen(data) as nat;
      var body := data[LenPrefixSize..];
      if n >= 0x8000_0000 then Stop([], Fail)
      else if n == |body| then Stop([body], Verdict(accepts(body)))
      else if n > |body| then
        if allocOk then Reassemble(Partial(body, n)) else Stop([], Fail)
      else if !accepts(body[..n]) then Stop([body[..n]], Fail)
      else Next(body[..n], body[n..])
  }

  /** Cutting the messages out of the bytes `data` one receive brought, step after step. */
  function Frames(data: seq<u8>, chunks: seq<seq<u8>>, accepts: seq<u8> -> bool, allocOk: bool, sizeSeen: Option<nat>): (o: Outcome)
    ensures Open(o.rx)
    decreases |chunks|, 2, |data|
  {
    match FrameStep(data, accepts, allocOk)
    case Stop(handled, result) => Outcome(handled, result, None)
    case Reassemble(p) => Receive(Some(p), chunks, accepts, allocOk, if sizeSeen.Some? then Some(p.size) else None)
    case Next(msg, rest) => Prepend([msg], Frames(rest, chunks, accepts, allocOk, sizeSeen))
  }

  /** The intended outcome of `transport_handle_data` given the receive buffer it starts from. */
  function Received(rx: Option<Partial>, chunks: seq<seq<u8>>, accepts: seq<u8> -> bool, allocOk: bool): Outcome
    requires Open(rx)
  {
    Receive(rx, chunks, accepts, allocOk, None)
  }

  /** `transport_handle_data` as written: a message finished in a later call than the one that read its prefix is handed over with size 0. */
  function ReceivedAsWritten(rx: Option<Partial>, chunks: seq<seq<u8>>, accepts: seq<u8> -> bool, allocOk: bool): Outcome
    requires Open(rx)
  {
    Receive(rx, chunks, accepts, allocOk, Some(0))
  }

  /** How many of `msgs` the handler is given: up to and including the first it rejects. */
  function Upto(msgs: seq<seq<u8>>, accepts: seq<u8> -> bool): (k: nat)
    ensures k <= |msgs|
    ensures |msgs| > 0 ==> k > 0
  {
    if |msgs| == 0 then 0 else if !accepts(msgs[0]) then 1 else 1 + Upto(msgs[1..], accepts)
  }

  predicate AllAccepted(msgs: seq<seq<u8>>, accepts: seq<u8> -> bool)
  {
    forall i | 0 <= i < |msgs| :: accepts(msgs[i])
  }

  /** A message's frame starts with its length. */
  lemma FramedStart(m: seq<u8>, rest: seq<u8>)
    requires |m| < U32
    ensures |Framed(m) + rest| >= LenPrefixSize
    ensures MessageLen(Framed(m) + rest) as int == |m|
    ensures (Framed(m) + rest)[LenPrefixSize..] == m + rest
  {
    LengthPrefixRoundTrip(|m|);
    assert (Framed(m) + rest)[..LenPrefixSize] == LengthPrefix(|m|);
  }

  /**
   * Several whole messages in one receive are handed over in order, up to
   * and including the first the handler rejects; the call fails exactly
   * when one is rejected, and nothing is left buffered.
   */
  lemma {:induction false} FramesInOrder(msgs: seq<seq<u8>>, chunks: seq<seq<u8>>, accepts: seq<u8> -> bool, allocOk: bool, sizeSeen: Option<nat>)
    requires |msgs| > 0
    requires forall i | 0 <= i < |msgs| :: |msgs[i]| < 0x8000_0000
    ensures Frames(Flat(msgs), chunks, accepts, allocOk, sizeSeen)
         == Outcome(msgs[..Upto(msgs, accepts)], Verdict(AllAccepted(msgs, accepts)), None)
  {
    var m := msgs[0];
    var rest := Flat(msgs[1..]);
    FramedStart(m, rest);
    var data := Flat(msgs);
    assert data == Framed(m) + rest;
    var body := data[LenPrefixSize..];
    assert body == m + rest;
    if |msgs| == 1 {
      assert rest == [];
      assert body == m;
      assert msgs[..1] == [m];
    } else {
      assert |rest| >= LenPrefixSize by {
        assert Flat(msgs[1..]) == Framed(msgs[1]) + Flat(msgs[2..]);
      }
      assert body[..|m|] == m;
      assert body[|m|..] == rest;
      if !accepts(m) {
        assert msgs[..1] == [m];
      } else {
        FramesInOrder(msgs[1..], chunks, accepts, allocOk, sizeSeen);
        assert [m] + msgs[1..][..Upto(msgs[1..], accepts)] == msgs[..Upto(msgs, accepts)];
        assert AllAccepted(msgs, accepts) == AllAccepted(msgs[1..], accepts) by {
          if AllAccepted(msgs[1..], accepts) {
            forall i | 0 <= i < |msgs| ensures accepts(msgs[i]) {
              if i > 0 { assert msgs[i] == msgs[1..][i - 1]; }
            }
          }
        }
      }
    }
  }

  /** A receive holding whole messages and nothing more, with no message being reassembled, delivers them in order. */
  lemma WholeMessages(msgs: seq<seq<u8>>, later: seq<seq<u8>>, accepts: seq<u8> -> bool, allocOk: bool)
    requires |msgs| > 0 && |Flat(msgs)| <= RxBufferSize
    requires forall i | 0 <= i < |msgs| :: |msgs[i]| < 0x8000_0000
    ensures Received(None, [Flat(msgs)] + later, accepts, allocOk)
         == Outcome(msgs[..Upto(msgs, accepts)], Verdict(AllAccepted(msgs, accepts)), None)
  {
    assert Flat(msgs) == Framed(msgs[0]) + Flat(msgs[1..]);
    assert ([Flat(msgs)] + later)[1..] == later;
    FramesInOrder(msgs, later, accepts, allocOk, None);
  }

  /**
   * A message being reassembled is completed by receives that bring exactly
   * its missing bytes: the handler gets the whole message, the call returns
   * its verdict and the buffer is released.
   */
  lemma {:induction false} ReassemblyCompletes(p: Partial, chunks: seq<seq<u8>>, accepts: seq<u8> -> bool, allocOk: bool)
    requires |p.data| < p.size
    requires forall i | 0 <= i < |chunks| :: |chunks[i]| > 0
    requires |p.data| + |Concat(chunks)| == p.size
    decreases |chunks|
    ensures Received(Some(p), chunks, accepts, allocOk)
         == Outcome([p.data + Concat(chunks)], Verdict(accepts(p.data + Concat(chunks))), None)
  {
    assert |chunks| > 0;
    var c := chunks[0];
    assert Concat(chunks) == c + Concat(chunks[1..]);
    assert Take(c, p.size - |p.data|) == c;
    if |p.data + c| < p.size {
      ReassemblyCompletes(Partial(p.data + c, p.size), chunks[1..], accepts, allocOk);
      assert (p.data + c) + Concat(chunks[1..]) == p.data + Concat(chunks);
    } else {
      assert Concat(chunks[1..]) == [];
      assert p.data + c == p.data + Concat(chunks);
    }
  }

  /**
   * Receives that bring fewer bytes than the message still lacks, followed
   * by a receive of nothing, leave the received bytes in the buffer and
   * fail without calling the handler.
   */
  lemma {:induction false} ReassemblyWaits(p: Partial, chunks: seq<seq<u8>>, accepts: seq<u8> -> bool, allocOk: bool)
    requires |p.data| < p.size
    requires forall i | 0 <= i < |chunks| :: |chunks[i]| > 0
    requires |p.data| + |Concat(chunks)| < p.size
    decreases |chunks|
    ensures Received(Some(p), chunks, accepts, allocOk) == Outcome([], Fail, Some(Partial(p.data + Concat(chunks), p.size)))
  {
    if |chunks| > 0 {
      var c := chunks[0];
      assert Concat(chunks) == c + Concat(chunks[1..]);
      assert Take(c, p.size - |p.data|) == c;
      ReassemblyWaits(Partial(p.data + c, p.size), chunks[1..], accepts, allocOk);
      assert (p.data + c) + Concat(chunks[1..]) == p.data + Concat(chunks);
    } else {
      assert p.data + Concat(chunks) == p.data;
    }
  }

  /** A first receive that brings a message's prefix and only part of its bytes starts its reassembly, when memory allows. */
  lemma SplitStart(m: seq<u8>, j: nat, later: seq<seq<u8>>, accepts: seq<u8> -> bool, allocOk: bool)
    requires |m| < 0x8000_0000
    requires LenPrefixSize <= j < |Framed(m)| && j <= RxBufferSize
    ensures Received(None, [Framed(m)[..j]] + later, accepts, allocOk)
         == if allocOk then Receive(Some(Partial(m[..j - LenPrefixSize], |m|)), later, accepts, allocOk, None)
            else Outcome([], Fail, None)
  {
    var first := Framed(m)[..j];
    FramedStart(m, []);
    assert Framed(m) + [] == Framed(m);
    assert first[..LenPrefixSize] == Framed(m)[..LenPrefixSize];
    assert MessageLen(first) == MessageLen(Framed(m));
    assert first[LenPrefixSize..] == m[..j - LenPrefixSize];
    assert ([first] + later)[0] == first && ([first] + later)[1..] == later;
    assert Take(first, RxBufferSize) == first;
    assert Received(None, [first] + later, accepts, allocOk) == Frames(first, later, accepts, allocOk, None);
    assert MessageLen(first) as int == |m| > |first[LenPrefixSize..]|;
  }

  /**
   * A message whose first receive brings its prefix and only part of its
   * bytes is buffered, and the receives bringing the rest complete it: the
   * handler gets the whole message.
   */
  lemma SplitMessage(m: seq<u8>, j: nat, later: seq<seq<u8>>, accepts: seq<u8> -> bool)
    requires |m| < 0x8000_0000
    requires LenPrefixSize <= j < |Framed(m)| && j <= RxBufferSize
    requires forall i | 0 <= i < |later| :: |later[i]| > 0
    requires Concat(later) == Framed(m)[j..]
    ensures Received(None, [Framed(m)[..j]] + later, accepts, true) == Outcome([m], Verdict(accepts(m)), None)
  {
    SplitStart(m, j, later, accepts, true);
    ReassemblyCompletes(Partial(m[..j - LenPrefixSize], |m|), later, accepts, true);
    assert m[..j - LenPrefixSize] + Framed(m)[j..] == m;
  }

  /** Without memory for the reassembly buffer, a split message fails at once and nothing is handed over. */
  lemma SplitMessageNoMemory(m: seq<u8>, j: nat, later: seq<seq<u8>>, accepts: seq<u8> -> bool)
    requires |m| < 0x8000_0000
    requires LenPrefixSize <= j < |Framed(m)| && j <= RxBufferSize
    ensures Received(None, [Framed(m)[..j]] + later, accepts, false) == Outcome([], Fail, None)
  {
    SplitStart(m, j, later, accepts, false);
  }

  /**
   * The lost size: a two-byte message whose first byte arrived in an
   * earlier call is completed by a later one, and the code as written hands
   * the handler an empty message, where the whole message was meant.
   */
  lemma ResumedMessageAsWritten(accepts: seq<u8> -> bool)
    ensures ReceivedAsWritten(Some(Partial([7], 2)), [[9]], accepts, true).handled == [[]]
    ensures Received(Some(Partial([7], 2)), [[9]], accepts, true).handled == [[7, 9]]
  {
    assert Take([9], 1) == [9];
    assert [7] + [9] == [7 as u8, 9];
  }

  /** The runtime's end of a connection to a peer runtime, `cc_transport_client_t`, as far as reassembly goes. */
  class TransportClient {
    /** `rx_buffer`: None while its `buffer` is NULL. */
    var rxBuffer: Option<Partial>

    constructor ()
      ensures rxBuffer == None
    {
      rxBuffer := None;
    }

    /**
     * `transport_handle_data` with the intended size for a resumed message:
     * the messages handed to the handler, the result and the buffer left
     * behind are those of `Received`.
     */
    method HandleData(chunks: seq<seq<u8>>, accepts: seq<u8> -> bool, allocOk: bool) returns (result: CcResult, handled: seq<seq<u8>>)
      requires Open(rxBuffer)
      modifies this`rxBuffer
      ensures Open(rxBuffer)
      ensures Outcome(handled, result, rxBuffer) == Received(old(rxBuffer), chunks, accepts, allocOk)
    {
      ghost var goal := Received(rxBuffer, chunks, accepts, allocOk);
      handled := [];
      var k := 0;
      while true
        invariant 0 <= k <= |chunks| && Open(rxBuffer)
        invariant goal == Prepend(handled, Receive(rxBuffer, chunks[k..], accepts, allocOk, None))
        decreases |chunks| - k
      {
        if k == |chunks| {
          assert handled + [] == handled;
          return Fail, handled;
        }
        var chunk := chunks[k];
        assert chunks[k..][0] == chunk && chunks[k..][1..] == chunks[k + 1..];
        k := k + 1;
        match rxBuffer
        case Some(p) =>
          match Fill(p, chunk) {
            case Starved =>
              assert handled + [] == handled;
              return Fail, handled;
            case Complete(data) =>
              rxBuffer := None;
              return Verdict(accepts(data)), handled + [data];
            case Grown(q) =>
              rxBuffer := Some(q);
          }
        case None =>
          var data := Take(chunk, RxBufferSize);
          if |data| == 0 {
            assert handled + [] == handled;
            return Fail, handled;
          }
          var cut, done, rx := CutFrames(data, chunks[k..], accepts, allocOk);
          if done.Some? {
            return done.value, handled + cut;
          }
          PrependAssoc(handled, cut, Receive(rx, chunks[k..], accepts, allocOk, None));
          handled := handled + cut;
          rxBuffer := rx;
      }
    }
  }

  /**
   * The inner part of `transport_handle_data` that cuts the messages out of
   * the bytes `data` one receive put in the stack buffer, handing each whole
   * one to the handler. It either finishes the call (`done`) or leaves a
   * message to be reassembled from the receives that follow (`rx`).
   */
  method CutFrames(data: seq<u8>, later: seq<seq<u8>>, accepts: seq<u8> -> bool, allocOk: bool)
    returns (handled: seq<seq<u8>>, done: Option<CcResult>, rx: Option<Partial>)
    ensures done.Some? ==> Frames(data, later, accepts, allocOk, None) == Outcome(handled, done.value, None)
    ensures done.None? ==>
      rx.Some? && Open(rx) && Frames(data, later, accepts, allocOk, None) == Prepend(handled, Receive(rx, later, accepts, allocOk, None))
  {
    handled := [];
    var rest := data;
    while true
      invariant Frames(data, later, accepts, allocOk, None) == Prepend(handled, Frames(rest, later, accepts, allocOk, None))
      decreases |rest|
    {
      match FrameStep(rest, accepts, allocOk)
      case Stop(h, result) =>
        return handled + h, Some(result), None;
      case Reassemble(p) =>
        assert handled + [] == handled;
        return handled, None, Some(p);
      case Next(msg, after) =>
        PrependAssoc(handled, [msg], Frames(after, later, accepts, allocOk, None));
        handled := handled + [msg];
        rest := after;
    }
  }

  /** Handing over `a` and then `b` is handing over `a + b`. */
  lemma PrependAssoc(a: seq<seq<u8>>, b: seq<seq<u8>>, o: Outcome)
    ensures Prepend(a, Prepend(b, o)) == Prepend(a + b, o)
  {
    assert a + (b + o.handled) == (a + b) + o.handled;
  }

  /** The transports a build can carry. */
  datatype TransportKind = SocketTransport | LwipTransport | FcmTransport

  /** Which transports were compiled in (`CC_TRANSPORT_SOCKET`, `CC_TRANSPORT_LWIP`, `CC_TRANSPORT_FCM`). */
  datatype Build = Build(socket: bool, lwip: bool, fcm: bool)

  const CalvinIp := "calvinip://"
  const Ssdp := "ssdp"
  const LwipUri := "lwip"
  const CalvinFcm := "calvinfcm://"

  /** `strncmp(s, p, |p|) == 0` is a prefix test. */
  lemma StrNEqIsPrefix(s: string, p: string)
    ensures StrNEq(s, p, |p|) <==> p <= s
  {
    if p <= s {
      assert Prefix(s, |p|) == s[..|p|] == p;
    }
  }

  /** Whether the first `|p|` characters of `uri` are `p`, as `strncmp` tests it. */
  predicate Starts(uri: string, p: string)
  {
    StrNEq(uri, p, |p|)
  }

  /**
   * `transport_create`'s choice of transport: a socket for "calvinip://"
   * and "ssdp", then lwip for "lwip", then FCM for "calvinfcm://", each
   * only when compiled in; any other URI gets none.
   */
  function Create(uri: string, build: Build): (r: Option<TransportKind>)
    ensures var socket := build.socket && (CalvinIp <= uri || Ssdp <= uri);
      var lwip := build.lwip && LwipUri <= uri;
      (r == Some(SocketTransport) <==> socket)
      && (r == Some(LwipTransport) <==> !socket && lwip)
      && (r == Some(FcmTransport) <==> !socket && !lwip && build.fcm && CalvinFcm <= uri)
  {
    StrNEqIsPrefix(uri, CalvinIp);
    StrNEqIsPrefix(uri, Ssdp);
    StrNEqIsPrefix(uri, LwipUri);
    StrNEqIsPrefix(uri, CalvinFcm);
    if build.socket && (Starts(uri, CalvinIp) || Starts(uri, Ssdp)) then Some(SocketTransport)
    else if build.lwip && Starts(uri, LwipUri) then Some(LwipTransport)
    else if build.fcm && Starts(uri, CalvinFcm) then Some(FcmTransport)
    else None
  }
}
