/**
 * The first-generation ports (port.c). A port moves through a handshake
 * with the registry and its peer: each DO_* state sends one request from
 * `port_transmit` and waits in the matching PENDING_* state, and the reply
 * handlers move it on or back. An enabled in-port owes its peer an ACK or
 * NACK for every token received, queued in arrival order; an enabled
 * out-port moves one token per call, over its tunnel or straight into a
 * local peer's queue.
 *
 * port.c calls the sequence-numbered queue functions of cc_fifo.c
 * (`fifo_com_peek`, `fifo_com_commit_read`, `fifo_com_cancel_read`), which
 * fifo.h does not declare, so a port's queue is a `CcFifo.Fifo`. Whether a
 * request was sent, whether the port's tunnel is enabled and whether its
 * actor is enabled are parameters; what a reply decodes to is a parameter.
 */
module LegacyPort {
  import opened Wrappers
  import opened Machine
  import opened CcCommon
  import opened CcToken
  import opened CcFifo

  /** The port states port.c uses; port.h declares an older two-state enum. */
  datatype PortState =
    | DoConnect | PendingConnect
    | DoEnable | PendingEnable | Enabled
    | DoDelete | PendingDelete | Deleted
    | DoDisconnect | PendingDisconnect | Disconnected
    | DoPeerLookup | PendingPeerLookup

  datatype Direction = In | Out

  /** The state that waits for the reply to the request a DO_* state sends. */
  function Awaits(s: PortState): Option<PortState>
  {
    match s
    case DoConnect => Some(PendingConnect)
    case DoEnable => Some(PendingEnable)
    case DoDelete => Some(PendingDelete)
    case DoDisconnect => Some(PendingDisconnect)
    case DoPeerLookup => Some(PendingPeerLookup)
    case _ => None
  }

  /** A state that has sent a request and waits for its reply. */
  predicate Waiting(s: PortState)
  {
    s.PendingConnect? || s.PendingEnable? || s.PendingDelete? || s.PendingDisconnect? || s.PendingPeerLookup?
  }

  /**
   * The state after `port_transmit`. A DO_* state moves to the state that
   * awaits its request once the request is sent; a DO_CONNECT port only
   * sends over an enabled tunnel, and one without a tunnel falls back to
   * a peer lookup. Every other state is left to the reply handlers.
   */
  function TransmitState(s: PortState, hasTunnel: bool, tunnelEnabled: bool, sent: bool): (t: PortState)
    ensures Awaits(s).None? ==> t == s
    ensures s != DoConnect && Awaits(s).Some? ==> t == (if sent then Awaits(s).value else s)
    ensures s == DoConnect ==>
      t == (if !hasTunnel then DoPeerLookup else if tunnelEnabled && sent then PendingConnect else DoConnect)
    ensures t != s ==> (sent && Some(t) == Awaits(s)) || (s == DoConnect && t == DoPeerLookup)
    ensures Waiting(s) ==> t == s
  {
    match s
    case DoConnect =>
      if !hasTunnel then DoPeerLookup
      else if tunnelEnabled && sent then PendingConnect
      else s
    case DoEnable => if sent then PendingEnable else s
    case DoDelete => if sent then PendingDelete else s
    case DoDisconnect => if sent then PendingDisconnect else s
    case DoPeerLookup => if sent then PendingPeerLookup else s
    case _ => s
  }

  /** A successful send from a DO_* state leaves it waiting for exactly that request's reply. */
  lemma SentRequestAwaitsReply(s: PortState, hasTunnel: bool)
    requires Awaits(s).Some? && (s == DoConnect ==> hasTunnel)
    ensures Waiting(TransmitState(s, hasTunnel, true, true))
    ensures Awaits(s) == Some(TransmitState(s, hasTunnel, true, true))
  {
  }

  // ---------------------------------------------------------------------
  // Reply handlers

  /** What a reply handler returns, the port's new state, and whether the actor is told a port was enabled. */
  datatype Reply = Reply(result: CcResult, state: PortState, notify: bool)

  /**
   * `port_connect_reply_handler`: outside PENDING_CONNECT the reply is
   * discarded with SUCCESS (the peer started the connection). Status 200
   * moves on to DO_ENABLE; a missing or other status falls back to a peer
   * lookup and fails.
   */
  function ConnectReply(s: PortState, status: Option<nat>): (r: Reply)
    ensures !r.notify && r.result != PendingResult
    ensures s != PendingConnect ==> r == Reply(Success, s, false)
    ensures s == PendingConnect ==> (r.result == Success <==> status == Some(200))
    ensures s == PendingConnect ==> r.state == if status == Some(200) then DoEnable else DoPeerLookup
  {
    if s != PendingConnect then Reply(Success, s, false)
    else if status == Some(200) then Reply(Success, DoEnable, false)
    else Reply(Fail, DoPeerLookup, false)
  }

  /**
   * `port_store_reply_handler`: only a port in PENDING_ENABLE takes the
   * reply; in any other state it fails with nothing changed. A stored port
   * is ENABLED and its actor is told; otherwise it goes back to DO_ENABLE.
   */
  function StoreReply(s: PortState, value: Option<bool>): (r: Reply)
    ensures r.result != PendingResult
    ensures s != PendingEnable ==> r == Reply(Fail, s, false)
    ensures s == PendingEnable ==> (r.result == Success <==> value == Some(true))
    ensures s == PendingEnable ==> r.state == if value == Some(true) then Enabled else DoEnable
    ensures r.notify <==> r.state == Enabled && s != Enabled
  {
    if s != PendingEnable then Reply(Fail, s, false)
    else if value == Some(true) then Reply(Success, Enabled, true)
    else Reply(Fail, DoEnable, false)
  }

  /**
   * `port_remove_reply_handler` as written: the `return SUCCESS` after
   * `if (status == true)` has no braces around it, so any reply whose
   * boolean decodes succeeds, and a `false` leaves the port in
   * PENDING_DELETE. Only a reply that does not decode sends it back to
   * DO_DELETE.
   */
  function RemoveReplyAsWritten(s: PortState, value: Option<bool>): (r: Reply)
    ensures !r.notify && r.result != PendingResult
    ensures s != PendingDelete ==> r == Reply(Fail, s, false)
    ensures s == PendingDelete ==> (r.result == Success <==> value.Some?)
  {
    if s != PendingDelete then Reply(Fail, s, false)
    else if value.Some? then Reply(Success, if value.value then Deleted else s, false)
    else Reply(Fail, DoDelete, false)
  }

  /**
   * `port_remove_reply_handler` as its log message and its sibling
   * handlers intend: only a `true` deletes the port and succeeds; anything
   * else sends it back to DO_DELETE and fails.
   */
  function RemoveReply(s: PortState, value: Option<bool>): (r: Reply)
    ensures !r.notify && r.result != PendingResult
    ensures s != PendingDelete ==> r == Reply(Fail, s, false)
    ensures s == PendingDelete ==> (r.result == Success <==> value == Some(true))
    ensures s == PendingDelete ==> r.state == if value == Some(true) then Deleted else DoDelete
  {
    if s != PendingDelete then Reply(Fail, s, false)
    else if value == Some(true) then Reply(Success, Deleted, false)
    else Reply(Fail, DoDelete, false)
  }

  /** `port_disconnect_reply_handler`: a port in PENDING_DISCONNECT is DISCONNECTED; in any other state the reply fails. */
  function DisconnectReply(s: PortState): (r: Reply)
    ensures !r.notify && r.result != PendingResult
    ensures r.result == Success <==> s == PendingDisconnect
    ensures r.state == if s == PendingDisconnect then Disconnected else s
  {
    if s != PendingDisconnect then Reply(Fail, s, false)
    else Reply(Success, Disconnected, false)
  }

  /** A refused store is retried: the next successful transmit sends the same request and waits again. */
  lemma StoreRetried(value: Option<bool>, hasTunnel: bool, tunnelEnabled: bool)
    requires value != Some(true)
    ensures var r := StoreReply(PendingEnable, value);
      r.result == Fail && TransmitState(r.state, hasTunnel, tunnelEnabled, true) == PendingEnable
  {
  }

  /** A refused delete is retried, with the intended handler. */
  lemma RemoveRetried(value: Option<bool>, hasTunnel: bool, tunnelEnabled: bool)
    requires value != Some(true)
    ensures var r := RemoveReply(PendingDelete, value);
      r.result == Fail && TransmitState(r.state, hasTunnel, tunnelEnabled, true) == PendingDelete
  {
  }

  /**
   * With the handler as written, a registry that answers `false` leaves
   * the port waiting for a reply that has already come: the handler
   * reports SUCCESS and no transmit ever sends the request again.
   */
  lemma RefusedRemoveStuckAsWritten(hasTunnel: bool, tunnelEnabled: bool, sent: bool)
    ensures RemoveReplyAsWritten(PendingDelete, Some(false)) == Reply(Success, PendingDelete, false)
    ensures TransmitState(PendingDelete, hasTunnel, tunnelEnabled, sent) == PendingDelete
    ensures RemoveReply(PendingDelete, Some(false)) == Reply(Fail, DoDelete, false)
  {
  }

  /** A refused connection starts over from a peer lookup, which the next successful transmit sends. */
  lemma RefusedConnectLooksUpPeer(status: Option<nat>, hasTunnel: bool, tunnelEnabled: bool)
    requires status != Some(200)
    ensures var r := ConnectReply(PendingConnect, status);
      r.state == DoPeerLookup && TransmitState(r.state, hasTunnel, tunnelEnabled, true) == PendingPeerLookup
  {
  }

  // ---------------------------------------------------------------------
  // The peer lookup reply

  /** The text that introduces the peer's runtime id in the registry's reply. */
  const NodeIdKey: string := "\"node_id\": \""

  predicate MatchAt(s: string, pat: string, i: nat)
  {
    i + |pat| <= |s| && s[i..i + |pat|] == pat
  }

  /** `strstr` from position `i`: the first position at or after `i` where `pat` occurs. */
  function FindFrom(s: string, pat: string, i: nat): (r: Option<nat>)
    ensures r.Some? ==> i <= r.value && MatchAt(s, pat, r.value)
    ensures r.Some? ==> forall j | i <= j < r.value :: !MatchAt(s, pat, j)
    ensures r.None? ==> forall j | i <= j :: !MatchAt(s, pat, j)
    decreases |s| - i
  {
    if i + |pat| > |s| then None
    else if MatchAt(s, pat, i) then Some(i)
    else FindFrom(s, pat, i + 1)
  }

  /**
   * The node id in the reply to a peer-port lookup: the text from just
   * after the first `"node_id": "` to the next `"`. None when either is
   * missing.
   */
  function NodeIdOf(value: string): (r: Option<string>)
    ensures r.Some? ==> '"' !in r.value
  {
    match FindFrom(value, NodeIdKey, 0)
    case None => None
    case Some(i) =>
      var k := i + |NodeIdKey|;
      match FindFrom(value, "\"", k)
      case None => None
      case Some(e) =>
        assert forall j | k <= j < e :: value[j] != '"' by {
          forall j | k <= j < e ensures value[j] != '"' {
            assert !MatchAt(value, "\"", j);
          }
        }
        Some(value[k..e])
  }

  lemma {:induction false} FindFromAt(s: string, pat: string, i: nat, m: nat)
    requires i <= m && MatchAt(s, pat, m) && forall j | i <= j < m :: !MatchAt(s, pat, j)
    ensures FindFrom(s, pat, i) == Some(m)
    decreases m - i
  {
    if i < m {
      FindFromAt(s, pat, i + 1, m);
    }
  }

  /**
   * A reply whose first `"node_id": "` introduces a quote-free id yields
   * that id, whatever follows its closing quote.
   */
  lemma NodeIdRoundTrip(before: string, id: string, after: string)
    requires forall i | 0 <= i < |before| :: !MatchAt(before + NodeIdKey, NodeIdKey, i)
    requires '"' !in id
    ensures NodeIdOf(before + NodeIdKey + id + "\"" + after) == Some(id)
  {
    var s := before + NodeIdKey + id + "\"" + after;
    var k := |before| + |NodeIdKey|;
    KeyFirstAt(before, id + "\"" + after);
    assert s == before + NodeIdKey + (id + "\"" + after);
    QuoteFirstAt(s, k, id);
    assert s[k..k + |id|] == id;
  }

  lemma KeyFirstAt(before: string, rest: string)
    requires forall i | 0 <= i < |before| :: !MatchAt(before + NodeIdKey, NodeIdKey, i)
    ensures FindFrom(before + NodeIdKey + rest, NodeIdKey, 0) == Some(|before|)
  {
    var s := before + NodeIdKey + rest;
    var k := |before| + |NodeIdKey|;
    assert s[..k] == before + NodeIdKey;
    forall j | 0 <= j < |before| ensures !MatchAt(s, NodeIdKey, j) {
      assert !MatchAt(before + NodeIdKey, NodeIdKey, j);
      assert s[..k][j..j + |NodeIdKey|] == s[j..j + |NodeIdKey|];
    }
    assert s[|before|..k] == NodeIdKey;
    FindFromAt(s, NodeIdKey, 0, |before|);
  }

  lemma QuoteFirstAt(s: string, k: nat, id: string)
    requires k + |id| < |s| && s[k..k + |id|] == id && s[k + |id|] == '"' && '"' !in id
    ensures FindFrom(s, "\"", k) == Some(k + |id|)
  {
    forall j | k <= j < k + |id| ensures !MatchAt(s, "\"", j) {
      assert s[j] == id[j - k];
    }
    assert s[k + |id|..k + |id| + 1] == "\"";
    FindFromAt(s, "\"", k, k + |id|);
  }

  /** What `port_get_peer_port_reply_handler` does with a reply. */
  datatype LookupOutcome =
    | Discarded             // SUCCESS: the port is not waiting for a lookup
    | LookupFailed          // FAIL, nothing changed
    | SetUp(nodeId: string) // `port_setup_connection` to that runtime decides the result

  /**
   * `port_get_peer_port_reply_handler`. `s` is the state of the port the
   * reply is for, None when no port has that id; `value` is the reply's
   * string, None when it does not decode; `allocOk` is whether copying the
   * id succeeds. A port not in PENDING_PEER_LOOKUP discards the reply; a
   * reply without a node id fails and the port keeps waiting.
   */
  function PeerLookupReply(s: Option<PortState>, value: Option<string>, allocOk: bool): (r: LookupOutcome)
    ensures s.None? ==> r == LookupFailed
    ensures s.Some? ==> (r == Discarded <==> s.value != PendingPeerLookup)
    ensures r.SetUp? <==> s == Some(PendingPeerLookup) && value.Some? && NodeIdOf(value.value).Some? && allocOk
    ensures r.SetUp? ==> Some(r.nodeId) == NodeIdOf(value.value)
  {
    if s.None? then LookupFailed
    else if s.value != PendingPeerLookup then Discarded
    else if value.None? then LookupFailed
    else match NodeIdOf(value.value)
      case None => LookupFailed
      case Some(id) => if allocOk then SetUp(id) else LookupFailed
  }

  // ---------------------------------------------------------------------
  // The port

  /** An ACK or NACK still owed to the peer for the token with this sequence number. */
  datatype TokenResponse = TokenResponse(sequenceNbr: u32, ack: bool)

  class Port {
    const direction: Direction
    const fifo: Fifo
    var state: PortState
    /** `pending_token_responses`, oldest first. */
    var responses: seq<TokenResponse>
    /** Whether `tunnel` is set. */
    var hasTunnel: bool
    /** `peer_port`, a port on the same runtime. */
    var peer: Port?

    /** The fields `port_create` sets before the connection is set up. */
    constructor (direction: Direction, state: PortState, fifo: Fifo)
      ensures this.direction == direction && this.state == state && this.fifo == fifo
      ensures responses == [] && !hasTunnel && peer == null
    {
      this.direction := direction;
      this.state := state;
      this.fifo := fifo;
      responses := [];
      hasTunnel := false;
      peer := null;
    }

    function PeerFifo(): set<Fifo>
      reads this, peer
    {
      if peer != null then {peer.fifo} else {}
    }

    function PeerSlots(): set<array<Token>>
      reads this, peer, PeerFifo()
    {
      if peer != null then {peer.fifo.tokens} else {}
    }

    /** The two queues a local move touches are distinct and consistent. */
    ghost predicate PeerApart()
      reads this, peer, PeerFifo()
    {
      peer != null ==> peer.fifo != fifo && peer.fifo.tokens != fifo.tokens && peer.fifo.Valid()
    }

    /**
     * `add_pending_token_response`: the response is appended after every
     * response still owed; FAIL with nothing changed when allocating it
     * fails (`allocOk`).
     */
    method AddPendingTokenResponse(sequenceNbr: u32, ack: bool, allocOk: bool) returns (r: CcResult)
      modifies this`responses
      ensures r == (if allocOk then Success else Fail)
      ensures responses == if allocOk then old(responses) + [TokenResponse(sequenceNbr, ack)] else old(responses)
    {
      if !allocOk {
        return Fail;
      }
      responses := responses + [TokenResponse(sequenceNbr, ack)];
      r := Success;
    }

    /** `peer_port`'s queue, if there is a local peer. */
    function PeerQueue(): (q: Option<Fifo>)
      reads this
      ensures q.Some? <==> peer != null
    {
      if peer != null then Some(peer.fifo) else None
    }

    /**
     * The out-port branch of `port_transmit` on a port with a token to
     * move, with the local commit that leaves the token's buffer to the
     * peer (see `MoveLocalAsWritten`).
     */
    method MoveToken(sent: bool)
      requires fifo.Valid() && fifo.TokensAvailable(1) && PeerApart()
      modifies fifo`tentativeReadPos, fifo`readPos, fifo`released, fifo.tokens
      modifies PeerFifo()`writePos, PeerSlots()
      ensures Moved(fifo, hasTunnel, PeerQueue(), sent)
    {
      var token, sequenceNbr := fifo.ComPeek();
      if hasTunnel {
        if !sent {
          fifo.ComCancelRead(sequenceNbr);
        }
      } else if peer != null {
        var ok := peer.fifo.Write(token.value, token.size);
        if ok {
          fifo.CommitRead(false);
        } else {
          fifo.ComCancelRead(sequenceNbr);
        }
      } else {
        fifo.ComCancelRead(sequenceNbr);
      }
    }

    /** The in-port branch of `port_transmit`: the oldest owed response is sent, and dropped once sent. */
    method SendResponse(sent: bool) returns (attempted: Option<TokenResponse>)
      modifies this`responses
      ensures old(responses) == [] ==> attempted.None? && responses == []
      ensures old(responses) != [] ==> (attempted == Some(old(responses)[0])
        && responses == if sent then old(responses)[1..] else old(responses))
    {
      if responses == [] {
        return None;
      }
      attempted := Some(responses[0]);
      if sent {
        responses := responses[1..];
      }
    }

    /**
     * `port_transmit`. `sent` is whether the send this call makes succeeds,
     * `tunnelEnabled` whether the port's tunnel is enabled and
     * `actorEnabled` whether its actor is. The state moves as
     * `TransmitState` says. An ENABLED port of an enabled actor also
     * works: an in-port sends its oldest owed response, an out-port with a
     * token to move moves it (`Moved`). Nothing else changes.
     */
    method Transmit(actorEnabled: bool, tunnelEnabled: bool, sent: bool) returns (attempted: Option<TokenResponse>)
      requires fifo.Valid() && PeerApart()
      modifies this`state, this`responses
      modifies fifo`tentativeReadPos, fifo`readPos, fifo`released, fifo.tokens
      modifies PeerFifo()`writePos, PeerSlots()
      ensures state == TransmitState(old(state), hasTunnel, tunnelEnabled, sent)
      ensures var serving := old(state) == Enabled && actorEnabled && direction == In && old(responses) != [];
        (serving ==> attempted == Some(old(responses)[0])
                     && responses == if sent then old(responses)[1..] else old(responses))
        && (!serving ==> attempted.None? && responses == old(responses))
      ensures var moving := old(state) == Enabled && actorEnabled && direction == Out && old(fifo.TokensAvailable(1));
        (moving ==> Moved(fifo, hasTunnel, PeerQueue(), sent))
        && (!moving ==> unchanged(fifo, fifo.tokens) && (peer != null ==> unchanged(peer.fifo, peer.fifo.tokens)))
    {
      attempted := None;
      match state
      case DoConnect =>
        if !hasTunnel {
          state := DoPeerLookup;
        } else if tunnelEnabled && sent {
          state := PendingConnect;
        }
      case Enabled =>
        if actorEnabled {
          if direction == In {
            attempted := SendResponse(sent);
          } else {
            var more := fifo.TokensAvailable(1);
            if more {
              MoveToken(sent);
            }
          }
        }
      case DoEnable =>
        if sent {
          state := PendingEnable;
        }
      case DoDelete =>
        if sent {
          state := PendingDelete;
        }
      case DoDisconnect =>
        if sent {
          state := PendingDisconnect;
        }
      case DoPeerLookup =>
        if sent {
          state := PendingPeerLookup;
        }
      case _ =>
    }
  }

  /**
   * What one token move does to the queues: `f` is the port's queue and
   * `peer` its local peer's. Over a tunnel the token stays peeked when it
   * was sent and the peek is undone otherwise. Into a local peer it is
   * appended to the peer's queue and committed without being freed, or the
   * peek is undone when the peer's queue is full. With neither, the peek
   * is undone. No buffer is handed back.
   */
  twostate predicate Moved(f: Fifo, hasTunnel: bool, peer: Option<Fifo>, sent: bool)
    requires old(f.Valid() && f.TokensAvailable(1))
    requires peer.Some? ==> old(peer.value.Valid()) && peer.value != f && peer.value.tokens != f.tokens
    reads f, f.tokens, if peer.Some? then {peer.value, peer.value.tokens} else {}
  {
    f.released == old(f.released)
    && (hasTunnel ==> KeptBack(f, sent))
    && (!hasTunnel && peer.Some? ==> HandedOver(f, peer.value, old(f.Next())))
    && (!hasTunnel && peer.None? ==> KeptBack(f, false))
  }

  /** The queue holds the same tokens, with one more peeked when `peeked` holds. */
  twostate predicate KeptBack(f: Fifo, peeked: bool)
    requires old(f.Valid())
    reads f, f.tokens
  {
    f.Valid() && f.Contents() == old(f.Contents()) && f.Peeked() == old(f.Peeked()) + (if peeked then 1 else 0)
  }

  /**
   * Token `t` went from `f` into `q` when `q` had a free slot, the oldest
   * token of `f` being committed; otherwise both queues are as they were.
   */
  twostate predicate HandedOver(f: Fifo, q: Fifo, t: Token)
    requires old(f.Valid() && q.Valid())
    reads f, f.tokens, q, q.tokens
  {
    q.Valid()
    && if old(q.SlotsAvailable(1)) then
         q.Contents() == old(q.Contents()) + [t]
         && f.Valid() && |old(f.Contents())| > 0 && f.Contents() == old(f.Contents())[1..] && f.Peeked() == old(f.Peeked())
       else
         q.Contents() == old(q.Contents()) && KeptBack(f, false)
  }

  /**
   * The local branch of `port_transmit` as written, from queue `f` into the
   * local peer's queue `q`, for a port with nothing peeked: the token's
   * buffer is written into `q` and then committed with
   * `fifo_com_commit_read`, which frees it. When `q` accepts a token that
   * owns a buffer, that buffer is both released and queued in `q`.
   */
  method MoveLocalAsWritten(f: Fifo, q: Fifo)
    requires f.Valid() && f.TokensAvailable(1) && f.Peeked() == 0 && f.tentativeReadPos < 0xFFFF_FFFF
    requires q.Valid() && q != f && q.tokens != f.tokens
    modifies f`tentativeReadPos, f`readPos, f`released, f.tokens, q`writePos, q.tokens
    ensures f.Valid() && q.Valid()
    ensures var t := old(f.Oldest());
      old(q.SlotsAvailable(1)) && Owns(t) ==>
        q.Contents() == old(q.Contents()) + [t] && f.released == old(f.released) + [t.value.value]
  {
    var token, sequenceNbr := PeekOldest(f);
    var ok := q.Write(token.value, token.size);
    if ok {
      ghost var q1 := q.Contents();
      CommitOldest(f, sequenceNbr);
      assert q.Contents() == q1;
    } else {
      f.ComCancelRead(sequenceNbr);
    }
  }

  /** `fifo_com_peek` on a queue with nothing peeked: hands out the oldest token. */
  method PeekOldest(f: Fifo) returns (token: Token, sequenceNbr: u32)
    requires f.Valid() && f.TokensAvailable(1) && f.Peeked() == 0 && f.tentativeReadPos < 0xFFFF_FFFF
    modifies f`tentativeReadPos
    ensures f.Valid() && f.Contents() == old(f.Contents()) && token == old(f.Oldest())
    ensures sequenceNbr == f.readPos < f.tentativeReadPos
  {
    Sub32NoWrap(f.tentativeReadPos, f.readPos, 0);
    token, sequenceNbr := f.ComPeek();
    Sub32NoWrap(f.tentativeReadPos, f.readPos, 1);
  }

  /** `fifo_com_commit_read` of the one token peeked: the oldest token goes, and its buffer with it. */
  method CommitOldest(f: Fifo, sequenceNbr: u32)
    requires f.Valid() && sequenceNbr == f.readPos < f.tentativeReadPos
    modifies f`readPos, f`released, f.tokens
    ensures f.Valid() && |old(f.Contents())| > 0
    ensures var t := old(f.Contents())[0];
      f.released == old(f.released) + (if Owns(t) then [t.value.value] else [])
  {
    f.ComCommitRead(sequenceNbr);
  }

  /** The fields of a port a reply handler leaves alone. */
  twostate predicate OnlyStateChanged(port: Port)
    reads port
  {
    port.responses == old(port.responses) && port.hasTunnel == old(port.hasTunnel) && port.peer == old(port.peer)
  }

  /** `port_connect_reply_handler` on the port the reply names; none (`port` null) fails. */
  method HandleConnectReply(port: Port?, status: Option<nat>) returns (r: CcResult)
    modifies if port != null then {port} else {}
    ensures port == null ==> r == Fail
    ensures port != null ==> Reply(r, port.state, false) == ConnectReply(old(port.state), status) && OnlyStateChanged(port)
  {
    if port == null {
      return Fail;
    }
    var reply := ConnectReply(port.state, status);
    port.state := reply.state;
    r := reply.result;
  }

  /** `port_store_reply_handler`; `notify` is whether `actor_port_enabled` is called for the port's actor. */
  method HandleStoreReply(port: Port?, value: Option<bool>) returns (r: CcResult, notify: bool)
    modifies if port != null then {port} else {}
    ensures port == null ==> r == Fail && !notify
    ensures port != null ==> Reply(r, port.state, notify) == StoreReply(old(port.state), value) && OnlyStateChanged(port)
  {
    if port == null {
      return Fail, false;
    }
    var reply := StoreReply(port.state, value);
    port.state := reply.state;
    r, notify := reply.result, reply.notify;
  }

  /** `port_remove_reply_handler`, with the intended braces (see `RemoveReplyAsWritten`). */
  method HandleRemoveReply(port: Port?, value: Option<bool>) returns (r: CcResult)
    modifies if port != null then {port} else {}
    ensures port == null ==> r == Fail
    ensures port != null ==> Reply(r, port.state, false) == RemoveReply(old(port.state), value) && OnlyStateChanged(port)
  {
    if port == null {
      return Fail;
    }
    var reply := RemoveReply(port.state, value);
    port.state := reply.state;
    r := reply.result;
  }

  /** `port_disconnect_reply_handler`. */
  method HandleDisconnectReply(port: Port?) returns (r: CcResult)
    modifies if port != null then {port} else {}
    ensures port == null ==> r == Fail
    ensures port != null ==> Reply(r, port.state, false) == DisconnectReply(old(port.state)) && OnlyStateChanged(port)
  {
    if port == null {
      return Fail;
    }
    var reply := DisconnectReply(port.state);
    port.state := reply.state;
    r := reply.result;
  }
}
