/**
 * The light actor (actors/io/cc_actor_light.c): every token on its in-port
 * is written to an "io.light" capability object, and the token is consumed
 * only when that write succeeds. Its state is the id of the light object.
 */
module Light {
  import opened Wrappers
  import opened Text
  import opened CcToken
  import opened CcFifo
  import opened CcCommon
  import opened CcCalvinsys
  import opened ManagedAttributes

  const LightCapability := "io.light"

  class LightActor {
    const inport: Fifo
    /** The id of the light object; None while the state pointer is NULL, "" for a cleared state. */
    var light: Option<string>

    ghost predicate Valid()
      reads this, inport
    {
      inport.Valid()
    }

    constructor (inport: Fifo)
      ensures this.inport == inport && light == None
    {
      this.inport := inport;
      light := None;
    }

    /**
     * `init`: installs a cleared state, then opens an "io.light" object;
     * `obj` is the id the capability layer returns, None for NULL, in which
     * case the cleared state stays and the result is a failure.
     */
    method Init(obj: Option<string>) returns (r: CcResult, calls: seq<SysCall>)
      modifies this`light
      ensures calls == [OpenCall(LightCapability, None)]
      ensures obj.None? ==> r == Fail && light == Some("")
      ensures obj.Some? ==> r == Success && light == obj
    {
      light := Some("");
      calls := [OpenCall(LightCapability, None)];
      if obj.None? {
        return Fail, calls;
      }
      light := obj;
      r := Success;
    }

    /**
     * `set_state`: without a "light" entry it fails and changes nothing.
     * Otherwise a cleared state is installed before the entry is decoded, so
     * an entry that is not a string fails and leaves the cleared state.
     */
    method SetState(managed: CcList<Value>) returns (r: CcResult)
      modifies this`light
      ensures Lookup(managed.items, "light").None? ==> r == Fail && light == old(light)
      ensures Lookup(managed.items, "light").Some? && StrEntry(managed.items, "light").None? ==>
        r == Fail && light == Some("")
      ensures StrEntry(managed.items, "light").Some? ==> r == Success && light == StrEntry(managed.items, "light")
    {
      var item := managed.Get("light");
      if item.None? {
        return Fail;
      }
      light := Some("");
      if !item.value.Str? {
        return Fail;
      }
      light := Some(item.value.s);
      r := Success;
    }

    /**
     * `fire`: without an input token nothing happens. Otherwise the next
     * token is peeked and written to the light object; `accepted` is what
     * the object's write reports. A refused write puts the token back and
     * the result is false; an accepted one commits and frees the oldest
     * token, and the result is true.
     */
    method Fire(accepted: bool) returns (fired: bool, calls: seq<SysCall>)
      requires Valid() && light.Some?
      modifies inport`tentativeReadPos, inport`readPos, inport`released, inport.tokens
      ensures Valid()
      ensures fired == (old(inport.TokensAvailable(1)) && accepted)
      ensures !old(inport.TokensAvailable(1)) ==> calls == [] && unchanged(inport, inport.tokens)
      ensures old(inport.TokensAvailable(1)) ==>
        calls == [WriteCall(light.value, old(inport.Next()).value, old(inport.Next()).size)]
      ensures !fired ==> inport.Contents() == old(inport.Contents()) && inport.readPos == old(inport.readPos)
      ensures !fired ==> inport.tokens[..] == old(inport.tokens[..]) && inport.released == old(inport.released)
      ensures !fired && old(inport.TokensAvailable(1)) ==> inport.tentativeReadPos == inport.readPos
      ensures fired ==> old(inport.Contents()) == [old(inport.Oldest())] + inport.Contents() && inport.Peeked() == old(inport.Peeked())
      ensures fired ==> inport.released == old(inport.released) + Released(true, old(inport.Oldest()))
    {
      if !inport.TokensAvailable(1) {
        return false, [];
      }
      var token := inport.Peek();
      calls := [WriteCall(light.value, token.value, token.size)];
      if !accepted {
        inport.CancelCommit();
        return false, calls;
      }
      inport.CommitRead(true);
      fired := true;
    }

    /** `get_attributes`: the state is dereferenced unchecked; the light id is appended as a string under "light". */
    method GetAttributes(managed: CcList<Value>)
      requires light.Some?
      modifies managed
      ensures managed.items == old(managed.items) + [Entry("light", Str(light.value))]
    {
      managed.AddN("light", 5, Str(light.value), EncodedSize(Str(light.value)));
      assert Prefix("light", 5) == "light";
    }

    /** `get_requires`: the actor needs the "io.light" capability. */
    method GetRequires(required: CcList<Option<Value>>)
      modifies required
      ensures required.items == old(required.items) + [Item(LightCapability, None, 0, true)]
    {
      required.AddN(LightCapability, 8, None, 0);
      assert Prefix(LightCapability, 8) == LightCapability;
    }
  }
}
