/**
 * The first-generation node (node.c): a linked list of messages awaiting a
 * reply, token delivery to and from port queues, and the loop that fires
 * the node's actors.
 *
 * Message encoding, the transport and the port lookups (`get_inport`,
 * `get_outport`) are outside the model: a looked-up port is a parameter
 * (null when none has the id), and what a send or an actor's `fire`
 * reports is an oracle.
 */
module LegacyNode {
  import opened Wrappers
  import opened Machine
  import opened CcCommon
  import opened LegacyFifo
  import LegacyIdentity

  /** `MAX_ACTORS`. */
  const MaxActors := 4

  /** `msg_type_t`. */
  datatype MsgType =
    | ProxyConfig | JoinReply | TunnelNew | Reply | StorageReply | ActorNewRequest
    | TokenMsg | TokenReply | StorageSet | PortConnect | PortDisconnect | ActorNew

  /** An entry of the pending list; `data` stands for the attached buffer, if any. */
  datatype PendingMsg = PendingMsg(uuid: string, kind: MsgType, data: Option<nat>)

  /** The first entry whose uuid equals `uuid`. */
  function FindPending(msgs: seq<PendingMsg>, uuid: string): (r: Option<nat>)
    ensures r.Some? ==> (
      r.value < |msgs| && msgs[r.value].uuid == uuid && forall j | 0 <= j < r.value :: msgs[j].uuid != uuid)
    ensures r.None? ==> forall j | 0 <= j < |msgs| :: msgs[j].uuid != uuid
  {
    if |msgs| == 0 then None
    else if msgs[0].uuid == uuid then Some(0)
    else match FindPending(msgs[1..], uuid)
      case None => None
      case Some(i) => Some(i + 1)
  }

  /** The list without its first entry for `uuid`; None when there is none. */
  function RemovePending(msgs: seq<PendingMsg>, uuid: string): (r: Option<seq<PendingMsg>>)
  {
    match FindPending(msgs, uuid)
    case None => None
    case Some(k) => Some(msgs[..k] + msgs[k + 1..])
  }

  /** Removing drops exactly one entry, the first for `uuid`, and keeps the others in order. */
  lemma RemovePendingDropsOne(msgs: seq<PendingMsg>, uuid: string)
    ensures RemovePending(msgs, uuid).Some? <==> exists j | 0 <= j < |msgs| :: msgs[j].uuid == uuid
    ensures RemovePending(msgs, uuid).Some? ==>
      var k := FindPending(msgs, uuid).value;
      var r := RemovePending(msgs, uuid).value;
      |r| == |msgs| - 1 && multiset(r) + multiset{msgs[k]} == multiset(msgs)
      && (forall j | 0 <= j < k :: r[j] == msgs[j])
      && (forall j | k <= j < |r| :: r[j] == msgs[j + 1])
  {
    if FindPending(msgs, uuid).Some? {
      var k := FindPending(msgs, uuid).value;
      DropOneMultiset(msgs, k);
    }
  }

  /** Cutting entry `k` out of a list leaves every other entry. */
  lemma DropOneMultiset(msgs: seq<PendingMsg>, k: nat)
    requires k < |msgs|
    ensures multiset(msgs[..k] + msgs[k + 1..]) + multiset{msgs[k]} == multiset(msgs)
  {
    assert msgs == msgs[..k] + [msgs[k]] + msgs[k + 1..];
  }

  /** An entry added for a fresh uuid is the one a removal for that uuid takes, leaving the list as it was. */
  lemma AddThenRemove(msgs: seq<PendingMsg>, m: PendingMsg)
    requires forall j | 0 <= j < |msgs| :: msgs[j].uuid != m.uuid
    ensures RemovePending(msgs + [m], m.uuid) == Some(msgs)
  {
    FindAppended(msgs, m);
    assert (msgs + [m])[..|msgs|] == msgs && (msgs + [m])[|msgs| + 1..] == [];
    assert msgs + [] == msgs;
  }

  lemma {:induction false} FindAppended(msgs: seq<PendingMsg>, m: PendingMsg)
    requires forall j | 0 <= j < |msgs| :: msgs[j].uuid != m.uuid
    ensures FindPending(msgs + [m], m.uuid) == Some(|msgs|)
    decreases |msgs|
  {
    if |msgs| > 0 {
      assert (msgs + [m])[1..] == msgs[1..] + [m];
      FindAppended(msgs[1..], m);
    }
  }

  /** A removal for some other uuid finds the same entry after an addition as before it. */
  lemma RemoveAfterAddOther(msgs: seq<PendingMsg>, m: PendingMsg, uuid: string)
    requires m.uuid != uuid && RemovePending(msgs, uuid).Some?
    ensures RemovePending(msgs + [m], uuid) == Some(RemovePending(msgs, uuid).value + [m])
  {
    var k := FindPending(msgs, uuid).value;
    FindPrefix(msgs, [m], uuid);
    assert (msgs + [m])[..k] == msgs[..k];
    assert (msgs + [m])[k + 1..] == msgs[k + 1..] + [m];
    assert msgs[..k] + (msgs[k + 1..] + [m]) == (msgs[..k] + msgs[k + 1..]) + [m];
  }

  lemma {:induction false} FindPrefix(msgs: seq<PendingMsg>, more: seq<PendingMsg>, uuid: string)
    requires FindPending(msgs, uuid).Some?
    ensures FindPending(msgs + more, uuid) == FindPending(msgs, uuid)
    decreases |msgs|
  {
    if msgs[0].uuid != uuid {
      assert (msgs + more)[1..] == msgs[1..] + more;
      FindPrefix(msgs[1..], more, uuid);
    }
  }

  /** The node's pending-message list, oldest first. */
  class Node {
    var pending: seq<PendingMsg>

    constructor()
      ensures pending == []
    {
      pending := [];
    }

    /**
     * `add_pending_msg_with_data`: the new entry goes after the last one;
     * FAIL, with the list unchanged, when it cannot be allocated.
     */
    method AddPendingWithData(kind: MsgType, uuid: string, data: Option<nat>, allocOk: bool) returns (r: CcResult)
      modifies this`pending
      ensures r != PendingResult && (r == Success <==> allocOk)
      ensures pending == if allocOk then old(pending) + [PendingMsg(uuid, kind, data)] else old(pending)
    {
      if !allocOk {
        return Fail;
      }
      pending := pending + [PendingMsg(uuid, kind, data)];
      r := Success;
    }

    /** `add_pending_msg`: an entry without data. */
    method AddPending(kind: MsgType, uuid: string, allocOk: bool) returns (r: CcResult)
      modifies this`pending
      ensures r != PendingResult && (r == Success <==> allocOk)
      ensures pending == if allocOk then old(pending) + [PendingMsg(uuid, kind, None)] else old(pending)
    {
      r := AddPendingWithData(kind, uuid, None, allocOk);
    }

    /**
     * `remove_pending_msg`: the walk stops at the first entry whose uuid
     * equals `uuid` and unlinks it; FAIL, with the list unchanged, when
     * none does.
     */
    method Remove(uuid: string) returns (r: CcResult)
      modifies this`pending
      ensures r != PendingResult && (r == Success <==> RemovePending(old(pending), uuid).Some?)
      ensures pending == if r == Success then RemovePending(old(pending), uuid).value else old(pending)
    {
      var i := 0;
      while i < |pending| && pending[i].uuid != uuid
        invariant 0 <= i <= |pending|
        invariant forall j | 0 <= j < i :: pending[j].uuid != uuid
      {
        i := i + 1;
      }
      if i == |pending| {
        return Fail;
      }
      assert FindPending(pending, uuid) == Some(i);
      pending := pending[..i] + pending[i + 1..];
      r := Success;
    }
  }

  /** The reply `handle_token` sends. */
  datatype TokenReplyKind = Ack | Nack

  /**
   * `handle_token`: with no in-port for the id it fails and replies
   * nothing. Otherwise the token is written to the port's queue; when the
   * write succeeds the reply is ACK and the result is what sending the
   * reply reports (`replyResult`), and when the queue is full the reply is
   * NACK, the token is dropped and the result is FAIL.
   */
  method HandleToken(port: Fifo?, token: Token, replyResult: CcResult) returns (r: CcResult, reply: Option<TokenReplyKind>)
    requires port != null ==> port.Valid()
    modifies (if port != null then {port} else {})`writePos, (if port != null then {port} else {})`freed,
      if port != null then {port.tokens} else {}
    ensures port == null ==> r == Fail && reply == None
    ensures port != null ==> port.Valid() && port.readPos == old(port.readPos) && port.tentativeReadPos == old(port.tentativeReadPos)
    ensures port != null && old(CanWriteAt(port.size, port.writePos, port.readPos)) ==>
      var stale := old(port.tokens[port.Slot(port.writePos)]);
      reply == Some(Ack) && r == replyResult
      && port.tokens[..] == old(port.tokens[..])[port.Slot(old(port.writePos)) := Some(token)]
      && port.writePos == Add32(old(port.writePos), 1)
      && port.freed == old(port.freed) + (if stale.Some? then [stale.value] else [])
    ensures port != null && !old(CanWriteAt(port.size, port.writePos, port.readPos)) ==>
      reply == Some(Nack) && r == Fail && port.tokens[..] == old(port.tokens[..])
      && port.writePos == old(port.writePos) && port.freed == old(port.freed)
    ensures port != null && old(port.Unwrapped()) && old(port.writePos) as int + 1 < U32 && reply == Some(Ack) ==>
      port.Unwrapped() && port.Contents() == old(port.Contents()) + [Some(token)] && port.Peeked() == old(port.Peeked())
    ensures port != null && old(port.Unwrapped()) && reply == Some(Nack) ==>
      port.Unwrapped() && port.Contents() == old(port.Contents()) && port.Peeked() == old(port.Peeked())
  {
    if port == null {
      return Fail, None;
    }
    var w := port.Write(Some(token));
    if w == Success {
      return replyResult, Some(Ack);
    }
    return Fail, Some(Nack);
  }

  /**
   * `handle_token_reply`: the reply is handed to `fifo_commit_read` with
   * freeing asked for, whatever the queue holds. An ACK commits the
   * oldest uncommitted token, freeing it, when its slot holds one; a NACK
   * moves the tentative counter back by one. A duplicate or stray reply,
   * with nothing read, is handled the same way: an ACK then drops the
   * oldest token although it was never read, and a NACK moves the
   * tentative counter behind the read counter. Nothing happens when no
   * out-port has the id.
   */
  method HandleTokenReply(port: Fifo?, acked: bool)
    requires port != null ==> port.Valid()
    modifies (if port != null then {port} else {})`readPos, (if port != null then {port} else {})`tentativeReadPos,
      (if port != null then {port} else {})`freed, if port != null then {port.tokens} else {}
    ensures port != null ==> port.Valid()
    ensures port != null && acked && old(port.tokens[port.Slot(port.readPos)]).Some? ==>
      var t := old(port.tokens[port.Slot(port.readPos)]);
      port.tokens[..] == old(port.tokens[..])[port.Slot(old(port.readPos)) := None]
      && port.readPos == Add32(old(port.readPos), 1) && port.tentativeReadPos == old(port.tentativeReadPos)
      && port.freed == old(port.freed) + [t.value]
    ensures port != null && acked && old(port.tokens[port.Slot(port.readPos)]).None? ==>
      port.tokens[..] == old(port.tokens[..]) && port.readPos == old(port.readPos)
      && port.tentativeReadPos == old(port.tentativeReadPos) && port.freed == old(port.freed)
    ensures port != null && !acked ==>
      port.tokens[..] == old(port.tokens[..]) && port.readPos == old(port.readPos) && port.freed == old(port.freed)
      && port.tentativeReadPos as int == (old(port.tentativeReadPos) as int - 1) % U32
    ensures port != null && old(port.Unwrapped()) && old(port.Peeked()) > 0 && (acked ==> old(port.Filled())) ==>
      port.Unwrapped() && port.Peeked() == old(port.Peeked()) - 1
      && (acked ==> port.Contents() == old(port.Contents())[1..] && port.freed == old(port.freed) + [old(port.Contents())[0].value])
      && (!acked ==> port.Contents() == old(port.Contents()))
  {
    if port != null {
      assert port.Unwrapped() && port.Peeked() > 0 && acked && port.Filled() ==> port.Contents()[0].Some?;
      port.CommitRead(acked, true);
    }
  }

  // ---------------------------------------------------------------------
  // Sending an actor's tokens
  // ---------------------------------------------------------------------

  /**
   * `send_tokens` for an out-port connected within the node: while the
   * port has unread tokens, each is read and written to the peer in-port's
   * queue (`move_token`), then committed without being freed; a token the
   * peer cannot take is rolled back and ends the sending with FAIL. With
   * no peer in-port (`peer` null) the first token is read, rolled back,
   * and the result is FAIL. This is the loop of the identity actor's
   * `fire`, whose contract states what moves.
   */
  method SendLocal(port: Fifo, peer: Fifo?) returns (r: CcResult)
    requires port.Valid() && port.Unwrapped() && port.Filled() && port.Peeked() == 0
    requires peer != null ==> (
      port != peer && port.tokens != peer.tokens && peer.Valid() && peer.Unwrapped()
      && peer.writePos as int + |port.Contents()| < U32 - 1)
    modifies port`readPos, port`tentativeReadPos, port`freed, port.tokens
    modifies if peer != null then {peer, peer.tokens} else {}
    ensures port.Valid() && port.Unwrapped() && port.Filled() && port.Peeked() == 0 && port.freed == old(port.freed)
    ensures peer == null ==>
      port.Contents() == old(port.Contents()) && (r == Success <==> |old(port.Contents())| == 0) && r != PendingResult
    ensures peer != null ==> (
      peer.Valid() && peer.Unwrapped()
      && var k := LegacyIdentity.Movable(|old(port.Contents())|, peer.size as int - 1 - |old(peer.Contents())|);
      port.Contents() == old(port.Contents())[k..]
      && peer.Contents() == old(peer.Contents()) + old(port.Contents())[..k]
      && (r == Success <==> k == |old(port.Contents())|) && r != PendingResult)
  {
    if peer == null {
      var more := port.CanRead();
      if !more {
        return Success;
      }
      var t := ReadRollback(port);
      return Fail;
    }
    r := LegacyIdentity.MoveAll(port, peer);
  }

  /**
   * The first token position from `from` on whose send does not report
   * SUCCESS, or `avail` when all of them do.
   */
  function FirstUnsent(send: nat -> CcResult, from: nat, avail: nat): (k: nat)
    requires from <= avail
    ensures from <= k <= avail && (k < avail ==> send(k) != Success)
    ensures forall j | from <= j < k :: send(j) == Success
    decreases avail - from
  {
    if from == avail then avail
    else if send(from) != Success then from
    else FirstUnsent(send, from + 1, avail)
  }

  /** Below the first unsent position, a send that does not report SUCCESS is at that position. */
  lemma FirstUnsentAt(send: nat -> CcResult, avail: nat, i: nat)
    requires i < avail && i <= FirstUnsent(send, 0, avail)
    ensures send(i) == Success ==> i < FirstUnsent(send, 0, avail)
    ensures send(i) != Success ==> i == FirstUnsent(send, 0, avail)
  {
  }

  /**
   * `send_tokens` for an out-port connected to another runtime: every
   * unread token is read and sent (`send(i)` is what sending the i-th one
   * reports), and stays read until its ACK or NACK arrives. The first send
   * that does not report SUCCESS ends the sending with its result; a FAIL
   * rolls that token's read back, while a PENDING leaves it read.
   */
  method SendRemote(port: Fifo, send: nat -> CcResult) returns (r: CcResult, sent: seq<Token>)
    requires port.Valid() && port.Unwrapped() && port.Filled()
    modifies port`tentativeReadPos
    ensures port.Valid() && port.Unwrapped() && port.Contents() == old(port.Contents())
    ensures var avail := |old(port.Contents())| - old(port.Peeked());
      var k := FirstUnsent(send, 0, avail);
      (r == Success <==> k == avail) && (k < avail ==> r == send(k))
      && |sent| == (if k < avail then k + 1 else k)
      && (forall i | 0 <= i < |sent| :: Some(sent[i]) == old(port.Contents())[old(port.Peeked()) + i])
      && port.Peeked() == old(port.Peeked()) + (if k < avail && send(k) == PendingResult then k + 1 else k)
  {
    ghost var c0, p0 := port.Contents(), port.Peeked();
    ghost var avail := |c0| - p0;
    ghost var k := FirstUnsent(send, 0, avail);
    r := Success;
    sent := [];
    var i := 0;
    var more := port.CanRead();
    while more && r == Success
      invariant port.Valid() && port.Unwrapped() && port.Filled() && port.Contents() == c0
      invariant 0 <= i <= avail && |sent| == i
      invariant forall j | 0 <= j < i :: Some(sent[j]) == c0[p0 + j]
      invariant r == Success ==> i <= k && port.Peeked() == p0 + i && (more <==> i < avail)
      invariant r != Success ==> (
        i == k + 1 && k < avail && r == send(k) && port.Peeked() == p0 + (if r == PendingResult then i else i - 1))
      decreases avail - i, if r == Success then 1 else 0
    {
      FirstUnsentAt(send, avail, i);
      var t;
      r, t := SendOne(port, send, i);
      sent := sent + [t];
      i := i + 1;
      if r == Success {
        more := port.CanRead();
      }
    }
  }

  /**
   * One round of the loop of `send_tokens` for a remote peer: the next
   * unread token is read and sent as the i-th, and its read is rolled back
   * (the rollback branch of `fifo_commit_read`) when the send reports FAIL.
   */
  method SendOne(port: Fifo, send: nat -> CcResult, i: nat) returns (r: CcResult, t: Token)
    requires port.Valid() && port.Unwrapped() && port.Filled() && port.Peeked() < |port.Contents()|
    modifies port`tentativeReadPos
    ensures port.Valid() && port.Unwrapped() && port.Filled() && port.Contents() == old(port.Contents())
    ensures Some(t) == old(port.Contents())[old(port.Peeked())] && r == send(i)
    ensures port.Peeked() == old(port.Peeked()) + (if r == Fail then 0 else 1)
  {
    var read := port.Read();
    assert read.Some?;
    t := read.value;
    r := send(i);
    if r == Fail {
      port.StepBack();
    }
  }

  // ---------------------------------------------------------------------
  // One round of the node loop
  // ---------------------------------------------------------------------

  /** A slot of the node's actor array. */
  datatype ActorSlot = NoActor | ActorAt(enabled: bool)

  /**
   * The actors `loop_once` fires from slot `i` on, and its result: each
   * enabled actor fires (`fire(i)` is what it reports) and, when that
   * succeeds, sends its tokens (`send(i)`); the first result that is not
   * SUCCESS ends the round.
   */
  function Round(actors: seq<ActorSlot>, fire: nat -> CcResult, send: nat -> CcResult, i: nat): (r: (CcResult, seq<nat>))
    requires i <= |actors|
    decreases |actors| - i
  {
    if i == |actors| then (Success, [])
    else if actors[i].NoActor? || !actors[i].enabled then Round(actors, fire, send, i + 1)
    else
      var res := if fire(i) == Success then send(i) else fire(i);
      if res != Success then (res, [i])
      else var rest := Round(actors, fire, send, i + 1); (rest.0, [i] + rest.1)
  }

  predicate Enabled(actors: seq<ActorSlot>, i: nat)
  {
    i < |actors| && actors[i].ActorAt? && actors[i].enabled
  }

  predicate Succeeds(fire: nat -> CcResult, send: nat -> CcResult, i: nat)
  {
    fire(i) == Success && send(i) == Success
  }

  /** One step of the round: a slot without an enabled actor is skipped, an enabled one fires and, when it succeeds, the round goes on. */
  lemma RoundStep(actors: seq<ActorSlot>, fire: nat -> CcResult, send: nat -> CcResult, i: nat)
    requires i < |actors|
    ensures !Enabled(actors, i) ==> Round(actors, fire, send, i) == Round(actors, fire, send, i + 1)
    ensures Enabled(actors, i) && Succeeds(fire, send, i) ==>
      Round(actors, fire, send, i) == (Round(actors, fire, send, i + 1).0, [i] + Round(actors, fire, send, i + 1).1)
    ensures Enabled(actors, i) && !Succeeds(fire, send, i) ==>
      Round(actors, fire, send, i).0 == (if fire(i) == Success then send(i) else fire(i)) != Success
      && Round(actors, fire, send, i).1 == [i]
  {
  }

  /** The round succeeds exactly when every enabled actor from slot `i` on fires and sends successfully. */
  lemma {:induction false} RoundResult(actors: seq<ActorSlot>, fire: nat -> CcResult, send: nat -> CcResult, i: nat)
    requires i <= |actors|
    ensures Round(actors, fire, send, i).0 == Success <==>
      forall j | i <= j < |actors| && Enabled(actors, j) :: Succeeds(fire, send, j)
    decreases |actors| - i
  {
    if i < |actors| {
      RoundResult(actors, fire, send, i + 1);
      RoundStep(actors, fire, send, i);
    }
  }

  /** The actors fired from slot `i` on are enabled ones, in slot order, and all but the last succeeded. */
  lemma {:induction false} RoundFiredEnabled(actors: seq<ActorSlot>, fire: nat -> CcResult, send: nat -> CcResult, i: nat)
    requires i <= |actors|
    ensures var fired := Round(actors, fire, send, i).1;
      (forall a | 0 <= a < |fired| :: i <= fired[a] < |actors| && Enabled(actors, fired[a]))
      && (forall a, b | 0 <= a < b < |fired| :: fired[a] < fired[b])
      && (forall a | 0 <= a < |fired| - 1 :: Succeeds(fire, send, fired[a]))
    decreases |actors| - i
  {
    if i < |actors| {
      RoundFiredEnabled(actors, fire, send, i + 1);
      RoundStep(actors, fire, send, i);
    }
  }

  /**
   * No enabled actor is passed over: after a successful round every enabled
   * actor from slot `i` on fired, and after a failed one every enabled
   * actor before the failing one did, the failing one being the last fired.
   */
  lemma {:induction false} RoundMissesNone(actors: seq<ActorSlot>, fire: nat -> CcResult, send: nat -> CcResult, i: nat)
    requires i <= |actors|
    ensures var round := Round(actors, fire, send, i); var r, fired := round.0, round.1;
      (r == Success ==> forall j | i <= j < |actors| && Enabled(actors, j) :: j in fired)
      && (r != Success ==> (
        |fired| > 0 && !Succeeds(fire, send, fired[|fired| - 1])
        && forall j | i <= j < fired[|fired| - 1] && Enabled(actors, j) :: j in fired))
    decreases |actors| - i
  {
    if i < |actors| {
      RoundMissesNone(actors, fire, send, i + 1);
      RoundStep(actors, fire, send, i);
    }
  }

  /**
   * The round succeeds exactly when every enabled actor fires and sends
   * successfully; the actors fired are enabled ones, in slot order, and
   * every enabled actor fires unless an earlier one failed.
   */
  lemma RoundFiresInOrder(actors: seq<ActorSlot>, fire: nat -> CcResult, send: nat -> CcResult)
    ensures var round := Round(actors, fire, send, 0); var r, fired := round.0, round.1;
      (r == Success <==> forall j | 0 <= j < |actors| && Enabled(actors, j) :: Succeeds(fire, send, j))
      && (forall a | 0 <= a < |fired| :: fired[a] < |actors| && Enabled(actors, fired[a]))
      && (forall a, b | 0 <= a < b < |fired| :: fired[a] < fired[b])
      && (forall a | 0 <= a < |fired| - 1 :: Succeeds(fire, send, fired[a]))
      && (r == Success ==> forall j | 0 <= j < |actors| && Enabled(actors, j) :: j in fired)
      && (r != Success ==> (
        |fired| > 0 && !Succeeds(fire, send, fired[|fired| - 1])
        && forall j | 0 <= j < fired[|fired| - 1] && Enabled(actors, j) :: j in fired))
  {
    RoundResult(actors, fire, send, 0);
    RoundFiredEnabled(actors, fire, send, 0);
    RoundMissesNone(actors, fire, send, 0);
  }

  /**
   * `loop_once` over the actor array: it returns the round's result and
   * the slots whose actor fired, in the order they fired.
   */
  method LoopOnce(actors: seq<ActorSlot>, fire: nat -> CcResult, send: nat -> CcResult) returns (r: CcResult, fired: seq<nat>)
    requires |actors| == MaxActors
    ensures r == Round(actors, fire, send, 0).0 && fired == Round(actors, fire, send, 0).1
  {
    ghost var whole := Round(actors, fire, send, 0);
    r := Success;
    fired := [];
    var i := 0;
    assert [] + whole.1 == whole.1;
    while i < MaxActors && r == Success
      invariant 0 <= i <= MaxActors
      invariant r == Success ==> whole.0 == Round(actors, fire, send, i).0 && whole.1 == fired + Round(actors, fire, send, i).1
      invariant r != Success ==> whole.0 == r && whole.1 == fired
      decreases MaxActors - i
    {
      r, fired := FireSlot(actors, fire, send, i, fired, whole);
      i := i + 1;
    }
    if r == Success {
      assert fired + [] == fired;
    }
  }

  /** One slot of `loop_once`: an enabled actor fires and, when that succeeds, sends its tokens. */
  method FireSlot(actors: seq<ActorSlot>, fire: nat -> CcResult, send: nat -> CcResult, i: nat, fired: seq<nat>, ghost whole: (CcResult, seq<nat>))
      returns (r: CcResult, fired': seq<nat>)
    requires i < |actors|
    requires whole.0 == Round(actors, fire, send, i).0 && whole.1 == fired + Round(actors, fire, send, i).1
    ensures r == Success ==> whole.0 == Round(actors, fire, send, i + 1).0 && whole.1 == fired' + Round(actors, fire, send, i + 1).1
    ensures r != Success ==> whole.0 == r && whole.1 == fired'
  {
    RoundStep(actors, fire, send, i);
    ghost var next := Round(actors, fire, send, i + 1);
    r, fired' := Success, fired;
    if actors[i].ActorAt? && actors[i].enabled {
      fired' := fired + [i];
      r := fire(i);
      if r == Success {
        r := send(i);
      }
      if r == Success {
        assert fired + ([i] + next.1) == fired' + next.1;
      }
    }
  }
}
