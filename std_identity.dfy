/**
 * The identity actor of the C runtime (actors/std/cc_actor_identity.c):
 * it forwards every token of its one in-port to its one out-port unchanged.
 * Its instance state is the single flag `dump`, restored from and saved to
 * the actor's managed attributes, a string-keyed list of encoded values.
 */
module StdIdentity {
  import opened Wrappers
  import opened CcToken
  import opened CcFifo
  import opened CcCommon
  import opened Text

  /** The state `init` builds from the managed attributes: the "dump" entry when it holds a bool, nothing otherwise. */
  function StateFrom(attrs: seq<Item<Value>>): Option<bool>
  {
    var v := Lookup(attrs, "dump");
    if v.Some? && v.value.Bool? then Some(v.value.b) else None
  }

  /** The entries `get_attributes` appends for a state: "dump" holding the flag, then "last" holding nil. */
  function Attributes(dump: bool): seq<Item<Value>>
  {
    [Item("dump", Bool(dump), EncodedSize(Bool(dump)), true), Item("last", Nil, EncodedSize(Nil), true)]
  }

  /** Saving the state and restoring it from the saved entries gives the same flag back. */
  lemma AttributesRoundTrip(earlier: seq<Item<Value>>, dump: bool)
    requires FirstPrefixOf(earlier, "dump").None?
    ensures StateFrom(earlier + Attributes(dump)) == Some(dump)
  {
    var a := Attributes(dump);
    assert earlier + a == (earlier + [a[0]]) + [a[1]];
    LookupAppended(earlier, a[0]);
    assert !("last" <= "dump") by { assert "last"[0] != "dump"[0]; }
    LookupAppendedOther(earlier + [a[0]], a[1], "dump");
  }

  /** An identity actor: its two port queues and its instance state, None while the C pointer is NULL. */
  class Identity {
    const inport: Fifo
    const outport: Fifo
    var dump: Option<bool>

    /** Two distinct well-formed queues. */
    ghost predicate Valid()
      reads this, inport, outport
    {
      inport != outport && inport.tokens != outport.tokens && inport.Valid() && outport.Valid()
    }

    /** A new actor on the given queues, before `init`. */
    constructor (inport: Fifo, outport: Fifo)
      ensures this.inport == inport && this.outport == outport && dump == None
    {
      this.inport := inport;
      this.outport := outport;
      dump := None;
    }

    /** `init`: fails, leaving the state alone, unless "dump" is present and holds a bool. */
    method Init(managed: CcList<Value>) returns (ok: bool)
      modifies this`dump
      ensures ok == StateFrom(managed.items).Some?
      ensures ok ==> dump == StateFrom(managed.items)
      ensures !ok ==> dump == old(dump)
    {
      var item := managed.Get("dump");
      if item.None? || !item.value.Bool? {
        return false;
      }
      dump := Some(item.value.b);
      ok := true;
    }

    /** `set_state` is `init`. */
    method SetState(managed: CcList<Value>) returns (ok: bool)
      modifies this`dump
      ensures ok == StateFrom(managed.items).Some?
      ensures ok ==> dump == StateFrom(managed.items)
      ensures !ok ==> dump == old(dump)
    {
      ok := Init(managed);
    }

    /**
     * `fire`: without a token on the in-port or a free slot on the out-port
     * nothing changes and the result is false. Otherwise the next unpeeked
     * input token is written, value and size unchanged, to the out-port and
     * the oldest input token is committed without being freed, since its
     * buffer now belongs to the out-port's queue.
     */
    method Fire() returns (fired: bool)
      requires Valid()
      modifies inport`tentativeReadPos, inport`readPos, inport`released, inport.tokens
      modifies outport`writePos, outport.tokens
      ensures Valid()
      ensures fired == old(inport.TokensAvailable(1) && outport.SlotsAvailable(1))
      ensures !fired ==> unchanged(inport, outport, inport.tokens, outport.tokens)
      ensures fired ==> outport.Contents() == old(outport.Contents()) + [old(inport.Next())]
      ensures fired ==> old(inport.Contents()) == [old(inport.Oldest())] + inport.Contents()
      ensures fired ==> inport.Peeked() == old(inport.Peeked()) && outport.Peeked() == old(outport.Peeked())
      ensures inport.released == old(inport.released)
    {
      if !inport.TokensAvailable(1) {
        return false;
      }
      if !outport.SlotsAvailable(1) {
        return false;
      }
      var token := inport.Peek();
      var written := outport.Write(token.value, token.size);
      if !written {
        // The free slot was checked above, so the source's cancel branch is never taken.
        assert false;
      }
      inport.CommitRead(false);
      fired := true;
    }

    /** `get_attributes`: fails without a state; otherwise appends "dump" and "last". */
    method GetAttributes(managed: CcList<Value>) returns (ok: bool)
      modifies managed
      ensures ok == dump.Some?
      ensures ok ==> managed.items == old(managed.items) + Attributes(dump.value)
      ensures !ok ==> managed.items == old(managed.items)
    {
      if dump.None? {
        return false;
      }
      var d := dump.value;
      managed.AddN("dump", 4, Bool(d), EncodedSize(Bool(d)));
      managed.AddN("last", 4, Nil, EncodedSize(Nil));
      assert Prefix("dump", 4) == "dump" && Prefix("last", 4) == "last";
      ok := true;
    }
  }
}
