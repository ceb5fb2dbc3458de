/**
 * The registry attribute actor (actors/context/cc_actor_registry_attribute.c):
 * at `init` it opens a "sys.attribute.indexed" object and writes the
 * attribute path it was given to it; then, for every trigger token, it
 * sends the attribute's value on its out-port.
 */
module RegistryAttribute {
  import opened Wrappers
  import opened Text
  import opened CcToken
  import opened CcFifo
  import opened CcCommon
  import opened CcCalvinsys
  import opened ManagedAttributes

  const AttributeCapability := "sys.attribute.indexed"

  class RegistryActor {
    const inport: Fifo
    const outport: Fifo
    /** The id of the attribute object; None while the state pointer is NULL. */
    var registry: Option<string>

    ghost predicate Valid()
      reads this, inport, outport
    {
      inport != outport && inport.tokens != outport.tokens && inport.Valid() && outport.Valid()
    }

    constructor (inport: Fifo, outport: Fifo)
      ensures this.inport == inport && this.outport == outport && registry == None
    {
      this.inport := inport;
      this.outport := outport;
      registry := None;
    }

    /**
     * `init`: without an "attribute" entry it fails before opening
     * anything. Otherwise an attribute object is opened (`obj` is the id
     * returned, None for NULL) and the entry's encoded value written to it
     * (`accepted` is what that write reports). The state holds the object's
     * id only when both succeed.
     */
    method Init(managed: CcList<Value>, obj: Option<string>, accepted: bool) returns (r: CcResult, calls: seq<SysCall>)
      modifies this`registry
      ensures var i := FirstPrefixOf(managed.items, "attribute");
        i.None? ==> r == Fail && calls == [] && registry == old(registry)
      ensures var i := FirstPrefixOf(managed.items, "attribute");
        i.Some? && obj.None? ==> r == Fail && calls == [OpenCall(AttributeCapability, None)] && registry == old(registry)
      ensures var i := FirstPrefixOf(managed.items, "attribute");
        i.Some? && obj.Some? ==> var item := managed.items[i.value];
          calls == [OpenCall(AttributeCapability, None), WriteCall(obj.value, Some(item.data), item.dataLen)]
      ensures r == Success <==> FirstPrefixOf(managed.items, "attribute").Some? && obj.Some? && accepted
      ensures r == Success ==> registry == obj
      ensures r != Success ==> registry == old(registry)
    {
      var item := managed.GetNode("attribute");
      if item.None? {
        return Fail, [];
      }
      calls := [OpenCall(AttributeCapability, None)];
      if obj.None? {
        return Fail, calls;
      }
      calls := calls + [WriteCall(obj.value, Some(item.value.data), item.value.dataLen)];
      if !accepted {
        return Fail, calls;
      }
      registry := obj;
      r := Success;
    }

    /** `set_state`: installs the "registry" entry when it is a string, and otherwise fails leaving the state alone. */
    method SetState(managed: CcList<Value>) returns (r: CcResult)
      modifies this`registry
      ensures r == (if StrEntry(managed.items, "registry").Some? then Success else Fail)
      ensures r == Success ==> registry == StrEntry(managed.items, "registry")
      ensures r == Fail ==> registry == old(registry)
    {
      var item := managed.Get("registry");
      if item.None? || !item.value.Str? {
        return Fail;
      }
      registry := Some(item.value.s);
      r := Success;
    }

    /**
     * `fire` as intended: without a state it does nothing and reports that
     * it did not fire. Otherwise, like the triggered temperature actor, it
     * needs a readable object (`readable`), a trigger and a free output
     * slot; a failed read (`reading` None) ends it before any peek; with a
     * reading, the trigger is peeked, the value sent and the oldest trigger
     * committed and freed.
     */
    method Fire(readable: bool, reading: Option<Token>) returns (fired: bool, calls: seq<SysCall>)
      requires Valid()
      modifies inport`tentativeReadPos, inport`readPos, inport`released, inport.tokens
      modifies outport`writePos, outport.tokens
      ensures Valid()
      ensures var ready := registry.Some? && readable && old(inport.TokensAvailable(1) && outport.SlotsAvailable(1));
        fired == (ready && reading.Some?) && calls == (if ready then [ReadCall(registry.value)] else [])
      ensures !fired ==> unchanged(inport, outport, inport.tokens, outport.tokens)
      ensures fired ==> outport.Contents() == old(outport.Contents()) + [reading.value]
      ensures fired ==> outport.Peeked() == old(outport.Peeked())
      ensures fired ==> old(inport.Contents()) == [old(inport.Oldest())] + inport.Contents() && inport.Peeked() == old(inport.Peeked())
      ensures fired ==> inport.released == old(inport.released) + Released(true, old(inport.Oldest()))
    {
      if registry.None? {
        return false, [];
      }
      if !readable {
        return false, [];
      }
      if !inport.TokensAvailable(1) {
        return false, [];
      }
      if !outport.SlotsAvailable(1) {
        return false, [];
      }
      calls := [ReadCall(registry.value)];
      if reading.None? {
        return false, calls;
      }
      var _ := inport.Peek();
      var written := outport.Write(reading.value.value, reading.value.size);
      if !written {
        // The free slot was checked above, so the source's cancel branch is never taken.
        assert false;
      }
      inport.CommitRead(true);
      fired := true;
    }

    /**
     * `fire` as written: without a state it returns `CC_FAIL` from a
     * function returning bool, which C converts to true, so the actor
     * reports a firing although nothing moved.
     */
    method FireAsWritten(readable: bool, reading: Option<Token>) returns (fired: bool, calls: seq<SysCall>)
      requires Valid()
      modifies inport`tentativeReadPos, inport`readPos, inport`released, inport.tokens
      modifies outport`writePos, outport.tokens
      ensures Valid()
      ensures registry.None? ==> fired && calls == [] && unchanged(inport, outport, inport.tokens, outport.tokens)
    {
      if registry.None? {
        return ResultAsBool(Fail), [];
      }
      fired, calls := Fire(readable, reading);
    }

    /** `get_attributes`: fails without a state; otherwise appends the object id as a string under "registry". */
    method GetAttributes(managed: CcList<Value>) returns (r: CcResult)
      modifies managed
      ensures r == (if registry.Some? then Success else Fail)
      ensures r == Success ==> managed.items == old(managed.items) + [Entry("registry", Str(registry.value))]
      ensures r == Fail ==> managed.items == old(managed.items)
    {
      if registry.None? {
        return Fail;
      }
      managed.AddN("registry", 8, Str(registry.value), EncodedSize(Str(registry.value)));
      assert Prefix("registry", 8) == "registry";
      r := Success;
    }

    /** `get_requires`: the actor needs the "sys.attribute.indexed" capability. */
    method GetRequires(required: CcList<Option<Value>>)
      modifies required
      ensures required.items == old(required.items) + [Item(AttributeCapability, None, 0, true)]
    {
      required.AddN(AttributeCapability, 21, None, 0);
      assert Prefix(AttributeCapability, 21) == AttributeCapability;
    }
  }

  /** The stateless firing: as written it reports a firing, as intended it does not. */
  lemma StatelessFiringReported()
    ensures ResultAsBool(Fail) == true
    ensures ResultAsBool(Success) == false
  {
  }
}
