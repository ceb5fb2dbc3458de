/**
 * The first-generation identity actor (actors/actor_identity.c): `fire`
 * moves tokens from its in-port queue to its out-port queue one at a time,
 * as long as the in-port has tokens, and hands each token's ownership to
 * the out-port queue.
 */
module LegacyIdentity {
  import opened Wrappers
  import opened Machine
  import opened CcCommon
  import opened LegacyFifo
  import CcToken

  /**
   * `actor_identity_init`: `dump` is read from the "_shadow_args" map when
   * the actor state has one (and "dump" is then added to the managed
   * attributes, `managedOk` being whether that succeeds), otherwise from
   * the actor state itself. `allocOk` is whether the two allocations
   * succeed; None is FAIL.
   */
  function Init(state: map<string, CcToken.Value>, shadowArgs: Option<map<string, CcToken.Value>>, allocOk: bool, managedOk: bool): (r: Option<bool>)
    ensures r.Some? ==> allocOk
    ensures shadowArgs.None? ==>
      (r.Some? <==> allocOk && "dump" in state && state["dump"].Bool?)
      && (r.Some? ==> r.value == state["dump"].b)
    ensures shadowArgs.Some? ==>
      (r.Some? <==> allocOk && "dump" in shadowArgs.value && shadowArgs.value["dump"].Bool? && managedOk)
      && (r.Some? ==> r.value == shadowArgs.value["dump"].b)
  {
    if !allocOk then None
    else
      var from := if shadowArgs.Some? then shadowArgs.value else state;
      if "dump" !in from || !from["dump"].Bool? || (shadowArgs.Some? && !managedOk) then None
      else Some(from["dump"].b)
  }

  /** With shadow arguments present, the actor state's own "dump" plays no part. */
  lemma ShadowArgsTakePrecedence(state: map<string, CcToken.Value>, other: map<string, CcToken.Value>, shadowArgs: map<string, CcToken.Value>, allocOk: bool, managedOk: bool)
    ensures Init(state, Some(shadowArgs), allocOk, managedOk) == Init(other, Some(shadowArgs), allocOk, managedOk)
  {
  }

  /** How many tokens `fire` can move: all of the in-port's, or as many as the out-port has free slots for. */
  function Movable(available: nat, free: nat): (k: nat)
    ensures k <= available && k <= free && (k == available || k == free)
  {
    if available <= free then available else free
  }

  /** The token a write frees from the slot it overwrites: the stale one, if any. */
  function Stale(t: Option<Token>): seq<Token>
  {
    if t.Some? then [t.value] else []
  }

  /**
   * The tokens freed by `k` writes into a ring of `n` slots holding
   * `slots`, starting at position `from`: each write frees the stale token
   * of the slot it overwrites, in write order.
   */
  ghost function Overwritten(slots: seq<Option<Token>>, n: nat, from: nat, k: nat): seq<Token>
    requires 0 < n <= |slots|
  {
    if k == 0 then [] else Overwritten(slots, n, from, k - 1) + Stale(slots[(from + k - 1) % n])
  }

  /** Slots that the first `m` writes from position `from` have not reached still hold what they held. */
  ghost predicate Unwritten(cur: seq<Option<Token>>, slots: seq<Option<Token>>, n: nat, from: nat, m: nat)
    requires 0 < n <= |slots| && |cur| == |slots|
  {
    forall i | 0 <= i < n && (i - from) % n >= m :: cur[i] == slots[i]
  }

  /** The out-port after `m` rounds: it has freed the stale tokens of the `m` slots written, and the others are untouched. */
  ghost predicate Tracked(outq: Fifo, slots: seq<Option<Token>>, n: nat, from: nat, m: nat, freed0: seq<Token>)
    reads outq, outq.tokens
  {
    0 < n <= |slots| && |slots| == outq.tokens.Length
    && outq.freed == freed0 + Overwritten(slots, n, from, m)
    && Unwritten(outq.tokens[..], slots, n, from, m)
  }

  /** One more write, to slot `(from + m) % n`, frees that slot's original token and leaves the unreached slots alone. */
  lemma OverwriteStep(slots: seq<Option<Token>>, n: nat, from: nat, m: nat, before: seq<Option<Token>>, after: seq<Option<Token>>)
    requires 0 < n <= |slots| && |before| == |slots| && |after| == |slots| && m < n
    requires Unwritten(before, slots, n, from, m)
    requires forall i | 0 <= i < |after| && i != (from + m) % n :: after[i] == before[i]
    ensures Overwritten(slots, n, from, m + 1) == Overwritten(slots, n, from, m) + Stale(before[(from + m) % n])
    ensures Unwritten(after, slots, n, from, m + 1)
  {
    WindowSlot(n, from, m);
  }

  /**
   * `actor_identity_fire`: an in-port without a queue moves nothing and
   * reports SUCCESS; otherwise the tokens move as `MoveAll` says.
   */
  method Fire(inq: Fifo?, outq: Fifo) returns (r: CcResult)
    requires inq != null ==> inq != outq && inq.tokens != outq.tokens
    requires inq != null ==> inq.Valid() && inq.Unwrapped() && inq.Filled() && inq.Peeked() == 0
    requires inq != null ==> outq.Valid() && outq.Unwrapped() && outq.writePos as int + |inq.Contents()| < U32 - 1
    modifies (if inq != null then {inq} else {})`readPos, (if inq != null then {inq} else {})`tentativeReadPos
    modifies (if inq != null then {inq} else {})`freed, if inq != null then {inq.tokens} else {}
    modifies (if inq != null then {outq} else {})`writePos, (if inq != null then {outq} else {})`freed
    modifies if inq != null then {outq.tokens} else {}
    ensures inq == null ==> r == Success
    ensures inq != null ==>
      inq.Valid() && inq.Unwrapped() && inq.Filled() && inq.Peeked() == 0 && inq.freed == old(inq.freed)
      && outq.Valid() && outq.Unwrapped()
      && var k := Movable(|old(inq.Contents())|, outq.size as int - 1 - |old(outq.Contents())|);
      inq.Contents() == old(inq.Contents())[k..]
      && outq.Contents() == old(outq.Contents()) + old(inq.Contents())[..k]
      && (r == Success <==> k == |old(inq.Contents())|)
      && r != PendingResult
    ensures inq != null ==>
      var k := Movable(|old(inq.Contents())|, outq.size as int - 1 - |old(outq.Contents())|);
      outq.freed == old(outq.freed) + Overwritten(old(outq.tokens[..]), outq.size as int, old(outq.writePos) as int, k)
  {
    if inq == null {
      return Success;
    }
    r := MoveAll(inq, outq);
  }

  /**
   * The loop of `actor_identity_fire`: while the in-port can be read, a
   * token is read and written to the out-port; a written token is
   * committed on the in-port without being freed, and a refused one is
   * rolled back, which ends the loop with FAIL. So the first `k` in-port tokens move in order,
   * `k` being what the out-port had room for, and the result is SUCCESS
   * exactly when every token moved.
   */
  method MoveAll(inq: Fifo, outq: Fifo) returns (r: CcResult)
    requires inq != outq && inq.tokens != outq.tokens
    requires inq.Valid() && inq.Unwrapped() && inq.Filled() && inq.Peeked() == 0
    requires outq.Valid() && outq.Unwrapped()
    requires outq.writePos as int + |inq.Contents()| < U32 - 1
    modifies inq`readPos, inq`tentativeReadPos, inq`freed, inq.tokens
    modifies outq`writePos, outq`freed, outq.tokens
    ensures inq.Valid() && inq.Unwrapped() && inq.Filled() && inq.Peeked() == 0 && inq.freed == old(inq.freed)
    ensures outq.Valid() && outq.Unwrapped()
    ensures var k := Movable(|old(inq.Contents())|, outq.size as int - 1 - |old(outq.Contents())|);
      inq.Contents() == old(inq.Contents())[k..]
      && outq.Contents() == old(outq.Contents()) + old(inq.Contents())[..k]
      && (r == Success <==> k == |old(inq.Contents())|)
      && r != PendingResult
    ensures var k := Movable(|old(inq.Contents())|, outq.size as int - 1 - |old(outq.Contents())|);
      outq.freed == old(outq.freed) + Overwritten(old(outq.tokens[..]), outq.size as int, old(outq.writePos) as int, k)
  {
    ghost var start := Start(inq, outq);
    ghost var free := outq.size as int - 1 - |start.outContents|;
    ghost var m := 0;
    r := Success;
    var more := inq.CanRead();
    while r == Success && more
      invariant Moved(inq, outq, start, m) && m <= free
      invariant r != PendingResult
      invariant r == Success ==> (more <==> m < |start.inContents|)
      invariant r == Fail ==> m == free && m < |start.inContents|
      decreases |start.inContents| - m, if r == Success then 1 else 0
    {
      r := Round(inq, outq, start, m);
      if r == Success {
        m := m + 1;
        more := inq.CanRead();
      }
    }
  }

  /** What the loop of `MoveAll` starts from. */
  datatype Snapshot = Snapshot(
    inContents: seq<Option<Token>>, inFreed: seq<Token>, inWrite: u32,
    outContents: seq<Option<Token>>, outSlots: seq<Option<Token>>, outFreed: seq<Token>, outRead: u32, outWrite: nat, n: nat)

  ghost function Start(inq: Fifo, outq: Fifo): Snapshot
    reads inq, inq.tokens, outq, outq.tokens
    requires inq.Valid() && inq.Unwrapped() && outq.Valid() && outq.Unwrapped()
  {
    Snapshot(inq.Contents(), inq.freed, inq.writePos,
      outq.Contents(), outq.tokens[..], outq.freed, outq.readPos, outq.writePos as nat, outq.size as nat)
  }

  /**
   * The queues after `m` rounds from `start`: the first `m` in-port tokens
   * have moved, the in-port frees nothing, and the out-port has freed the
   * stale tokens of the `m` slots it wrote and left its other slots alone.
   */
  ghost predicate Moved(inq: Fifo, outq: Fifo, start: Snapshot, m: nat)
    reads inq, inq.tokens, outq, outq.tokens
  {
    inq != outq && inq.tokens != outq.tokens
    && inq.Valid() && inq.Unwrapped() && inq.Filled() && inq.Peeked() == 0 && inq.freed == start.inFreed
    && outq.Valid() && outq.Unwrapped() && outq.readPos == start.outRead
    && m <= |start.inContents| && inq.Contents() == start.inContents[m..] && outq.Contents() == start.outContents + start.inContents[..m]
    && inq.writePos == start.inWrite && outq.writePos as int == start.outWrite + m
    && start.outWrite + |start.inContents| < U32 - 1
    && start.n == outq.size as int && |start.outSlots| == outq.tokens.Length
    && Tracked(outq, start.outSlots, start.n, start.outWrite, m, start.outFreed)
  }

  /** The `m`-th round: it moves token `m` when the out-port has room, and otherwise changes nothing and fails. */
  method Round(inq: Fifo, outq: Fifo, ghost start: Snapshot, ghost m: nat) returns (r: CcResult)
    requires Moved(inq, outq, start, m) && m < |start.inContents|
    modifies inq`readPos, inq`tentativeReadPos, inq`freed, inq.tokens
    modifies outq`writePos, outq`freed, outq.tokens
    ensures r == Success || r == Fail
    ensures r == Success <==> m < outq.size as int - 1 - |start.outContents|
    ensures Moved(inq, outq, start, if r == Success then m + 1 else m)
  {
    ghost var in1, out1 := inq.Contents(), outq.Contents();
    r := MoveTracked(inq, outq, start.outSlots, start.n, start.outWrite, m, start.outFreed);
    if r == Success {
      assert start.inContents[..m + 1] == start.inContents[..m] + [start.inContents[m]];
      assert start.inContents[m + 1..] == start.inContents[m..][1..];
    }
  }

  /** `MoveOne` as round `m` of the loop, following the out-port's freed tokens and unwritten slots. */
  method MoveTracked(inq: Fifo, outq: Fifo, ghost slots: seq<Option<Token>>, ghost n: nat, ghost from: nat, ghost m: nat, ghost freed0: seq<Token>) returns (r: CcResult)
    requires inq != outq && inq.tokens != outq.tokens
    requires inq.Valid() && inq.Unwrapped() && inq.Filled() && inq.Peeked() == 0 && |inq.Contents()| > 0
    requires outq.Valid() && outq.Unwrapped() && outq.writePos as int + 1 < U32
    requires n == outq.size as int && |slots| == outq.tokens.Length && outq.writePos as int == from + m && m < n
    requires Tracked(outq, slots, n, from, m, freed0)
    modifies inq`readPos, inq`tentativeReadPos, inq`freed, inq.tokens
    modifies outq`writePos, outq`freed, outq.tokens
    ensures inq.Valid() && inq.Unwrapped() && inq.Filled() && inq.Peeked() == 0 && inq.freed == old(inq.freed)
    ensures outq.Valid() && outq.Unwrapped()
    ensures inq.writePos == old(inq.writePos) && outq.readPos == old(outq.readPos)
    ensures r == Success || r == Fail
    ensures r == Success <==> |old(outq.Contents())| < outq.size as int - 1
    ensures r == Success ==> (inq.Contents() == old(inq.Contents())[1..] && outq.Contents() == old(outq.Contents()) + [old(inq.Contents())[0]]
      && outq.writePos == Add32(old(outq.writePos), 1))
    ensures r == Fail ==> inq.Contents() == old(inq.Contents()) && outq.Contents() == old(outq.Contents()) && outq.writePos == old(outq.writePos)
    ensures Tracked(outq, slots, n, from, if r == Success then m + 1 else m, freed0)
  {
    ghost var before, slot, freed := outq.tokens[..], outq.Slot(outq.writePos), outq.freed;
    assert slot == (from + m) % n;
    assert Unwritten(before, slots, n, from, m) && freed == freed0 + Overwritten(slots, n, from, m);
    r := MoveOne(inq, outq);
    if r == Success {
      assert forall i | 0 <= i < |before| && i != slot :: outq.tokens[..][i] == before[i];
      OverwriteStep(slots, n, from, m, before, outq.tokens[..]);
      assert outq.freed == freed + Stale(before[slot]);
      assert outq.freed == freed0 + Overwritten(slots, n, from, m + 1);
    } else {
      assert outq.tokens[..] == before && outq.freed == freed;
    }
  }

  /** One round of the loop of `actor_identity_fire`: read, write, then commit or roll back. */
  method MoveOne(inq: Fifo, outq: Fifo) returns (r: CcResult)
    requires inq != outq && inq.tokens != outq.tokens
    requires inq.Valid() && inq.Unwrapped() && inq.Filled() && inq.Peeked() == 0 && |inq.Contents()| > 0
    requires outq.Valid() && outq.Unwrapped() && outq.writePos as int + 1 < U32
    modifies inq`readPos, inq`tentativeReadPos, inq`freed, inq.tokens
    modifies outq`writePos, outq`freed, outq.tokens
    ensures inq.Valid() && inq.Unwrapped() && inq.Filled() && inq.Peeked() == 0 && inq.freed == old(inq.freed)
    ensures outq.Valid() && outq.Unwrapped()
    ensures inq.writePos == old(inq.writePos) && outq.readPos == old(outq.readPos)
    ensures r == Success || r == Fail
    ensures r == Success <==> |old(outq.Contents())| < outq.size as int - 1
    ensures r == Success ==> (inq.Contents() == old(inq.Contents())[1..] && outq.Contents() == old(outq.Contents()) + [old(inq.Contents())[0]]
      && outq.writePos == Add32(old(outq.writePos), 1))
    ensures r == Fail ==> inq.Contents() == old(inq.Contents()) && outq.Contents() == old(outq.Contents()) && outq.writePos == old(outq.writePos)
    ensures r == Success ==> outq.freed == old(outq.freed) + Stale(old(outq.tokens[outq.Slot(outq.writePos)]))
    ensures r == Success ==> forall i | 0 <= i < outq.tokens.Length && i != old(outq.Slot(outq.writePos)) ::
      outq.tokens[i] == old(outq.tokens[i])
    ensures r == Fail ==> outq.freed == old(outq.freed) && outq.tokens[..] == old(outq.tokens[..])
  {
    var t := inq.Read();
    CanWriteMeaning(outq.size, outq.writePos, outq.readPos);
    r := outq.Write(t);
    if r != Success {
      inq.CommitRead(false, false);
      r := Fail;
    } else {
      assert inq.Contents()[0].Some?;
      inq.CommitRead(true, false);
    }
  }
}
