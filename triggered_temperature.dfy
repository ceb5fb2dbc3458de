/**
 * The triggered temperature actor (actors/cc_actor_triggered_temperature.c):
 * each token on its in-port is a trigger; when one is waiting, the output
 * has room and the "io.temperature" object has a reading, the reading is
 * sent on the out-port and the trigger is consumed.
 */
module TriggeredTemperature {
  import opened Wrappers
  import opened Text
  import opened CcToken
  import opened CcFifo
  import opened CcCommon
  import opened CcCalvinsys
  import opened ManagedAttributes

  const TemperatureCapability := "io.temperature"

  class TemperatureActor {
    const inport: Fifo
    const outport: Fifo
    /** The id of the temperature object; None while the state pointer is NULL. */
    var temperature: Option<string>

    ghost predicate Valid()
      reads this, inport, outport
    {
      inport != outport && inport.tokens != outport.tokens && inport.Valid() && outport.Valid()
    }

    constructor (inport: Fifo, outport: Fifo)
      ensures this.inport == inport && this.outport == outport && temperature == None
    {
      this.inport := inport;
      this.outport := outport;
      temperature := None;
    }

    /** `init`: opens an "io.temperature" object; the state is installed only when `obj`, the id returned, exists. */
    method Init(obj: Option<string>) returns (r: CcResult, calls: seq<SysCall>)
      modifies this`temperature
      ensures calls == [OpenCall(TemperatureCapability, None)]
      ensures obj.None? ==> r == Fail && temperature == old(temperature)
      ensures obj.Some? ==> r == Success && temperature == obj
    {
      calls := [OpenCall(TemperatureCapability, None)];
      if obj.None? {
        return Fail, calls;
      }
      temperature := obj;
      r := Success;
    }

    /** `set_state`: installs the "temperature" entry when it is a string, and otherwise fails leaving the state alone. */
    method SetState(managed: CcList<Value>) returns (r: CcResult)
      modifies this`temperature
      ensures r == (if StrEntry(managed.items, "temperature").Some? then Success else Fail)
      ensures r == Success ==> temperature == StrEntry(managed.items, "temperature")
      ensures r == Fail ==> temperature == old(temperature)
    {
      var item := managed.Get("temperature");
      if item.None? || !item.value.Str? {
        return Fail;
      }
      temperature := Some(item.value.s);
      r := Success;
    }

    /**
     * `fire`: it needs a readable temperature object (`readable`, what its
     * `can_read` answers), a trigger token and a free output slot, and does
     * nothing otherwise. The object is then read; `reading` is what the read
     * returns, None when it fails, which ends the firing before any peek.
     * With a reading, the trigger is peeked, the reading written to the
     * out-port and the oldest trigger committed and freed.
     */
    method Fire(readable: bool, reading: Option<Token>) returns (fired: bool, calls: seq<SysCall>)
      requires Valid() && temperature.Some?
      modifies inport`tentativeReadPos, inport`readPos, inport`released, inport.tokens
      modifies outport`writePos, outport.tokens
      ensures Valid()
      ensures var ready := readable && old(inport.TokensAvailable(1) && outport.SlotsAvailable(1));
        fired == (ready && reading.Some?) && calls == (if ready then [ReadCall(temperature.value)] else [])
      ensures !fired ==> unchanged(inport, outport, inport.tokens, outport.tokens)
      ensures fired ==> outport.Contents() == old(outport.Contents()) + [reading.value]
      ensures fired ==> outport.Peeked() == old(outport.Peeked())
      ensures fired ==> old(inport.Contents()) == [old(inport.Oldest())] + inport.Contents() && inport.Peeked() == old(inport.Peeked())
      ensures fired ==> inport.released == old(inport.released) + Released(true, old(inport.Oldest()))
    {
      if !readable {
        return false, [];
      }
      if !inport.TokensAvailable(1) {
        return false, [];
      }
      if !outport.SlotsAvailable(1) {
        return false, [];
      }
      calls := [ReadCall(temperature.value)];
      if reading.None? {
        return false, calls;
      }
      var _ := inport.Peek();
      var written := outport.Write(reading.value.value, reading.value.size);
      if !written {
        // The free slot was checked above, so the source's cancel branch is never taken.
        assert false;
      }
      inport.CommitRead(true);
      fired := true;
    }

    /** `get_attributes`: the state is dereferenced unchecked; the object id is appended as a string under "temperature". */
    method GetAttributes(managed: CcList<Value>)
      requires temperature.Some?
      modifies managed
      ensures managed.items == old(managed.items) + [Entry("temperature", Str(temperature.value))]
    {
      managed.AddN("temperature", 11, Str(temperature.value), EncodedSize(Str(temperature.value)));
      assert Prefix("temperature", 11) == "temperature";
    }

    /** `get_requires`: the actor needs the "io.temperature" capability. */
    method GetRequires(required: CcList<Option<Value>>)
      modifies required
      ensures required.items == old(required.items) + [Item(TemperatureCapability, None, 0, true)]
    {
      required.AddN(TemperatureCapability, 14, None, 0);
      assert Prefix(TemperatureCapability, 14) == TemperatureCapability;
    }
  }
}
