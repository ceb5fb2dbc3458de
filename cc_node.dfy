/**
 * The parts of the node (runtime/north/cc_node.c) that work on its own
 * state: the fixed table of requests awaiting a reply, and the handlers for
 * a token and for a token reply arriving from a peer runtime.
 *
 * A table slot is in use while its reply handler is set. The handler and
 * the data it is given are opaque here; each is named by an identifier.
 */
module CcNode {
  import opened Wrappers
  import opened Machine
  import opened Text
  import opened CcToken
  import opened CcCommon
  import opened CcFifo
  import opened CcActor
  import opened CcPort

  /** `MAX_PENDING_MSGS`: the number of slots in the table (common.h). */
  const MaxPending := 10

  /** A slot of `node->pending_msgs`: the request's id, its reply handler (None for NULL) and the handler's data. */
  datatype Slot = Slot(uuid: string, handler: Option<nat>, data: Option<nat>)

  /** An empty slot, as `node_reset` leaves it, with its id text kept. */
  function Cleared(s: Slot): Slot
  {
    s.(handler := None, data := None)
  }

  /** The index of the first slot not in use. */
  function FirstFree(slots: seq<Slot>): (r: Option<nat>)
    ensures r.Some? ==> r.value < |slots| && slots[r.value].handler.None?
    ensures r.Some? ==> forall j | 0 <= j < r.value :: slots[j].handler.Some?
    ensures r.None? ==> forall j | 0 <= j < |slots| :: slots[j].handler.Some?
  {
    if |slots| == 0 then None
    else if slots[0].handler.None? then Some(0)
    else match FirstFree(slots[1..])
      case None => None
      case Some(i) => Some(i + 1)
  }

  /** The slot a lookup of `uuid` finds: the first in use whose id agrees with `uuid` on `n` characters. */
  predicate Matches(s: Slot, uuid: string, n: nat)
  {
    s.handler.Some? && StrNEq(s.uuid, uuid, n)
  }

  /** The index of the first slot in use whose id agrees with `uuid` on `n` characters. */
  function FirstMatch(slots: seq<Slot>, uuid: string, n: nat): (r: Option<nat>)
    ensures r.Some? ==> r.value < |slots| && Matches(slots[r.value], uuid, n)
    ensures r.Some? ==> forall j | 0 <= j < r.value :: !Matches(slots[j], uuid, n)
    ensures r.None? ==> forall j | 0 <= j < |slots| :: !Matches(slots[j], uuid, n)
  {
    if |slots| == 0 then None
    else if Matches(slots[0], uuid, n) then Some(0)
    else match FirstMatch(slots[1..], uuid, n)
      case None => None
      case Some(i) => Some(i + 1)
  }

  /** The table after `node_add_pending_msg`, or None when every slot is in use. */
  function Added(slots: seq<Slot>, uuid: string, n: nat, handler: nat, data: Option<nat>): Option<seq<Slot>>
  {
    match FirstFree(slots)
    case None => None
    case Some(i) => Some(slots[i := Slot(StrNCpy(slots[i].uuid, uuid, n), Some(handler), data)])
  }

  /** The table after `node_remove_pending_msg`, or None when no slot matches. */
  function Removed(slots: seq<Slot>, uuid: string, n: nat): Option<seq<Slot>>
  {
    match FirstMatch(slots, uuid, n)
    case None => None
    case Some(i) => Some(slots[i := Cleared(slots[i])])
  }

  /** The number of slots in use. */
  function InUse(slots: seq<Slot>): (r: nat)
    ensures r <= |slots|
  {
    if |slots| == 0 then 0 else (if slots[0].handler.Some? then 1 else 0) + InUse(slots[1..])
  }

  /** Setting one slot changes the count of slots in use by what that slot's use changed. */
  lemma {:induction false} InUseUpdate(slots: seq<Slot>, i: nat, s: Slot)
    requires i < |slots|
    ensures InUse(slots[i := s]) + (if slots[i].handler.Some? then 1 else 0)
         == InUse(slots) + (if s.handler.Some? then 1 else 0)
  {
    if i > 0 {
      assert slots[i := s][1..] == slots[1..][i - 1 := s];
      InUseUpdate(slots[1..], i - 1, s);
    }
  }

  /** Adding fails exactly when every slot is in use, and otherwise takes one more slot. */
  lemma AddedCount(slots: seq<Slot>, uuid: string, n: nat, handler: nat, data: Option<nat>)
    ensures Added(slots, uuid, n, handler, data).None? <==> InUse(slots) == |slots|
    ensures Added(slots, uuid, n, handler, data).Some? ==> InUse(Added(slots, uuid, n, handler, data).value) == InUse(slots) + 1
  {
    FullMeansNoneFree(slots);
    var i := FirstFree(slots);
    if i.Some? {
      InUseUpdate(slots, i.value, Slot(StrNCpy(slots[i.value].uuid, uuid, n), Some(handler), data));
    }
  }

  /** Every slot is in use exactly when the count of slots in use is the table's size. */
  lemma {:induction false} FullMeansNoneFree(slots: seq<Slot>)
    ensures FirstFree(slots).None? <==> InUse(slots) == |slots|
  {
    if |slots| > 0 {
      FullMeansNoneFree(slots[1..]);
    }
  }

  /** Removing takes one slot out of use. */
  lemma RemovedCount(slots: seq<Slot>, uuid: string, n: nat)
    ensures Removed(slots, uuid, n).Some? ==> InUse(Removed(slots, uuid, n).value) + 1 == InUse(slots)
  {
    var i := FirstMatch(slots, uuid, n);
    if i.Some? {
      InUseUpdate(slots, i.value, Cleared(slots[i.value]));
    }
  }

  /** A request added under an id no pending request has is the one a lookup of that id finds. */
  lemma AddedFound(slots: seq<Slot>, uuid: string, n: nat, handler: nat, data: Option<nat>)
    requires FirstMatch(slots, uuid, n).None? && Added(slots, uuid, n, handler, data).Some?
    ensures var after := Added(slots, uuid, n, handler, data).value;
      FirstMatch(after, uuid, n) == FirstFree(slots)
      && after[FirstFree(slots).value].handler == Some(handler) && after[FirstFree(slots).value].data == data
  {
    var i := FirstFree(slots).value;
    var after := Added(slots, uuid, n, handler, data).value;
    assert Matches(after[i], uuid, n);
    assert forall j | 0 <= j < i :: after[j] == slots[j];
    FirstMatchAt(after, uuid, n, i);
  }

  /** The first slot that matches is found. */
  lemma {:induction false} FirstMatchAt(slots: seq<Slot>, uuid: string, n: nat, i: nat)
    requires i < |slots| && Matches(slots[i], uuid, n)
    requires forall j | 0 <= j < i :: !Matches(slots[j], uuid, n)
    ensures FirstMatch(slots, uuid, n) == Some(i)
  {
    if i > 0 {
      assert forall j | 0 <= j < i - 1 :: slots[1..][j] == slots[j + 1];
      FirstMatchAt(slots[1..], uuid, n, i - 1);
    }
  }

  /** Removing a request just added under a fresh id puts every slot's use back as it was. */
  lemma AddedThenRemoved(slots: seq<Slot>, uuid: string, n: nat, handler: nat, data: Option<nat>)
    requires FirstMatch(slots, uuid, n).None? && Added(slots, uuid, n, handler, data).Some?
    ensures var after := Removed(Added(slots, uuid, n, handler, data).value, uuid, n);
      after.Some? && |after.value| == |slots|
      && forall j | 0 <= j < |slots| :: after.value[j].handler == slots[j].handler
  {
    AddedFound(slots, uuid, n, handler, data);
  }

  /** The node's table of requests awaiting a reply, `node->pending_msgs`. */
  class PendingTable {
    const slots: array<Slot>

    /** A table of `MaxPending` slots, none in use. */
    constructor ()
      ensures fresh(slots) && slots.Length == MaxPending
      ensures forall i | 0 <= i < slots.Length :: slots[i].handler.None?
    {
      slots := new Slot[MaxPending](_ => Slot("", None, None));
    }

    /** `node_add_pending_msg`: the first free slot takes the id, the handler and its data; none free fails with no change. */
    method Add(uuid: string, n: nat, handler: nat, data: Option<nat>) returns (r: CcResult)
      modifies slots
      ensures r == Success <==> Added(old(slots[..]), uuid, n, handler, data).Some?
      ensures r == Success ==> slots[..] == Added(old(slots[..]), uuid, n, handler, data).value
      ensures r == Fail ==> slots[..] == old(slots[..])
    {
      var i := 0;
      while i < slots.Length
        invariant 0 <= i <= slots.Length
        invariant forall j | 0 <= j < i :: slots[j].handler.Some?
      {
        if slots[i].handler.None? {
          assert FirstFree(slots[..]) == Some(i) by { FirstFreeAt(slots[..], i); }
          slots[i] := Slot(StrNCpy(slots[i].uuid, uuid, n), Some(handler), data);
          return Success;
        }
        i := i + 1;
      }
      return Fail;
    }

    /** `node_remove_pending_msg`: the first slot in use with a matching id is freed; none fails with no change. */
    method Remove(uuid: string, n: nat) returns (r: CcResult)
      modifies slots
      ensures r == Success <==> Removed(old(slots[..]), uuid, n).Some?
      ensures r == Success ==> slots[..] == Removed(old(slots[..]), uuid, n).value
      ensures r == Fail ==> slots[..] == old(slots[..])
    {
      var i := 0;
      while i < slots.Length
        invariant 0 <= i <= slots.Length
        invariant forall j | 0 <= j < i :: !Matches(slots[j], uuid, n)
      {
        if slots[i].handler.Some? && StrNEq(slots[i].uuid, uuid, n) {
          FirstMatchAt(slots[..], uuid, n, i);
          slots[i] := Cleared(slots[i]);
          return Success;
        }
        i := i + 1;
      }
      return Fail;
    }

    /** `node_get_pending_msg`: a copy of the first slot in use with a matching id, the table unchanged. */
    method Get(uuid: string, n: nat) returns (r: Option<Slot>)
      ensures r.Some? <==> exists j | 0 <= j < slots.Length :: Matches(slots[j], uuid, n)
      ensures r.Some? ==> exists j | 0 <= j < slots.Length ::
        r.value == slots[j] && Matches(r.value, uuid, n) && (forall k | 0 <= k < j :: !Matches(slots[k], uuid, n))
    {
      var i := 0;
      while i < slots.Length
        invariant 0 <= i <= slots.Length
        invariant forall j | 0 <= j < i :: !Matches(slots[j], uuid, n)
      {
        if slots[i].handler.Some? && StrNEq(slots[i].uuid, uuid, n) {
          return Some(slots[i]);
        }
        i := i + 1;
      }
      return None;
    }

    /** `node_can_add_pending_msg`: some slot is free. */
    method CanAdd() returns (b: bool)
      ensures b <==> exists j | 0 <= j < slots.Length :: slots[j].handler.None?
    {
      var i := 0;
      while i < slots.Length
        invariant 0 <= i <= slots.Length
        invariant forall j | 0 <= j < i :: slots[j].handler.Some?
      {
        if slots[i].handler.None? {
          return true;
        }
        i := i + 1;
      }
      return false;
    }

    /** The pending part of `node_reset`: every slot's handler and data are cleared. */
    method Reset()
      modifies slots
      ensures forall j | 0 <= j < slots.Length :: slots[j] == Cleared(old(slots[j]))
    {
      var i := 0;
      while i < slots.Length
        invariant 0 <= i <= slots.Length
        invariant forall j | 0 <= j < i :: slots[j] == Cleared(old(slots[j]))
        invariant forall j | i <= j < slots.Length :: slots[j] == old(slots[j])
      {
        slots[i] := Cleared(slots[i]);
        i := i + 1;
      }
    }
  }

  /** The first free slot is found. */
  lemma {:induction false} FirstFreeAt(slots: seq<Slot>, i: nat)
    requires i < |slots| && slots[i].handler.None?
    requires forall j | 0 <= j < i :: slots[j].handler.Some?
    ensures FirstFree(slots) == Some(i)
  {
    if i > 0 {
      assert forall j | 0 <= j < i - 1 :: slots[1..][j] == slots[j + 1];
      FirstFreeAt(slots[1..], i - 1);
    }
  }

  /**
   * `node_handle_token`: a token from a peer runtime for `port`. It is
   * taken only when the port's actor is ENABLED, the queue has a free slot,
   * the copy of its data could be allocated (`dataAlloc`) and its sequence
   * number is at least the queue's write counter; it is then appended.
   * Otherwise the result is a failure and the queue is as it was.
   */
  method HandleToken(port: Port, value: Value, size: nat, sequenceNbr: u32, dataAlloc: bool) returns (r: CcResult)
    requires port.fifo.Valid()
    modifies port.fifo`writePos, port.fifo.tokens
    ensures port.fifo.Valid()
    ensures r == Success <==>
      old(port.actor.state) == ActorEnabled && old(port.fifo.SlotsAvailable(1)) && dataAlloc && sequenceNbr >= old(port.fifo.writePos)
    ensures r == Success ==> port.fifo.Contents() == old(port.fifo.Contents()) + [Token(Some(value), size)]
    ensures r == Fail ==> port.fifo.Contents() == old(port.fifo.Contents()) && port.fifo.writePos == old(port.fifo.writePos)
  {
    if port.actor.state != ActorEnabled {
      return Fail;
    }
    if !port.fifo.SlotsAvailable(1) {
      return Fail;
    }
    if !dataAlloc {
      return Fail;
    }
    var ok := port.fifo.ComWrite(Some(value), size, sequenceNbr);
    r := if ok then Success else Fail;
  }

  /** The kinds of reply a peer runtime sends for a token, `port_reply_type_t`. */
  datatype ReplyType = Ack | Nack | Abort

  /** `fifo_com_commit_read` commits the oldest token for this acknowledgement. */
  predicate AckCommits(readPos: u32, tentativeReadPos: u32, sequenceNbr: u32)
  {
    sequenceNbr < tentativeReadPos && readPos < tentativeReadPos && sequenceNbr == readPos
  }

  /** The queues of some ports. */
  function QueuesOf(ports: set<Port>): set<Fifo>
  {
    set p | p in ports :: p.fifo
  }

  /** The slot arrays of some queues. */
  function SlotArrays(fifos: set<Fifo>): set<array<Token>>
  {
    set f | f in fifos :: f.tokens
  }

  /**
   * `node_handle_token_reply`: a peer runtime's reply for the token with
   * `sequenceNbr` sent from the port with id `portId` (its first `n`
   * characters). An ACK commits the token, a NACK rewinds the peeks to it,
   * and an ABORT, or a port not found, changes nothing.
   */
  method HandleTokenReply(node: Node, portId: string, n: nat, reply: ReplyType, sequenceNbr: u32)
    requires FindPort(node.actors, portId, n).Some? ==> FindPort(node.actors, portId, n).value.fifo.Valid()
    modifies QueuesOf(AsSet(FindPort(node.actors, portId, n)))`readPos, QueuesOf(AsSet(FindPort(node.actors, portId, n)))`released
    modifies QueuesOf(AsSet(FindPort(node.actors, portId, n)))`tentativeReadPos
    modifies SlotArrays(QueuesOf(AsSet(FindPort(node.actors, portId, n))))
    ensures old(FindPort(node.actors, portId, n)).Some? ==>
      var f := old(FindPort(node.actors, portId, n)).value.fifo;
      f.Valid()
      && (reply == Ack ==>
            f.tentativeReadPos == old(f.tentativeReadPos)
            && if AckCommits(old(f.readPos), old(f.tentativeReadPos), sequenceNbr)
               then f.Contents() == old(f.Contents())[1..] && f.readPos == Add32(old(f.readPos), 1)
               else f.Contents() == old(f.Contents()) && f.readPos == old(f.readPos))
      && (reply == Nack ==>
            f.Contents() == old(f.Contents()) && f.readPos == old(f.readPos)
            && f.tentativeReadPos == if CancelAccepted(old(f.readPos), old(f.tentativeReadPos), sequenceNbr) then sequenceNbr else old(f.tentativeReadPos))
      && (reply == Abort ==>
            f.Contents() == old(f.Contents()) && f.readPos == old(f.readPos) && f.tentativeReadPos == old(f.tentativeReadPos))
  {
    var port := FindPort(node.actors, portId, n);
    if port.None? {
      return;
    }
    var f := port.value.fifo;
    assert f in QueuesOf(AsSet(port)) && f.tokens in SlotArrays(QueuesOf(AsSet(port)));
    match reply
    case Ack => f.ComCommitRead(sequenceNbr);
    case Nack => f.ComCancelRead(sequenceNbr);
    case Abort =>
  }
}
