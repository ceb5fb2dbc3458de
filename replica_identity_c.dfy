/**
 * The replica test actor of the C runtime
 * (actors/test/cc_actor_replica_identity.c): it turns every unsigned
 * integer token into the string "<index>:<number>", where `index` is the
 * replica index the runtime assigns through `did_replicate`.
 */
module ReplicaIdentityC {
  import opened Wrappers
  import opened Machine
  import opened Text
  import opened CcToken
  import opened CcFifo
  import opened CcCommon

  datatype ReplicaState = ReplicaState(dump: bool, index: u32)

  /** "dump" when present as a bool, false otherwise. */
  function DumpFrom(attrs: seq<Item<Value>>): bool
  {
    var v := Lookup(attrs, "dump");
    v.Some? && v.value.Bool? && v.value.b
  }

  /** "index" when present as an unsigned integer, 0 otherwise. */
  function IndexFrom(attrs: seq<Item<Value>>): u32
  {
    var v := Lookup(attrs, "index");
    if v.Some? && v.value.UInt? then v.value.n else 0
  }

  /** The state `init` builds: missing or mistyped entries fall back to the defaults. */
  function StateFrom(attrs: seq<Item<Value>>): ReplicaState
  {
    ReplicaState(DumpFrom(attrs), IndexFrom(attrs))
  }

  /** With neither entry present the defaults are `dump` false and `index` 0. */
  lemma DefaultState(attrs: seq<Item<Value>>)
    requires FirstPrefixOf(attrs, "dump").None? && FirstPrefixOf(attrs, "index").None?
    ensures StateFrom(attrs) == ReplicaState(false, 0)
  {
  }

  /** The entries `get_attributes` appends: "dump" and "index". */
  function Attributes(s: ReplicaState): seq<Item<Value>>
  {
    [Item("dump", Bool(s.dump), EncodedSize(Bool(s.dump)), true),
     Item("index", UInt(s.index), EncodedSize(UInt(s.index)), true)]
  }

  /** Saving the state and restoring it from the saved entries gives the same state back. */
  lemma AttributesRoundTrip(earlier: seq<Item<Value>>, s: ReplicaState)
    requires FirstPrefixOf(earlier, "dump").None? && FirstPrefixOf(earlier, "index").None?
    ensures StateFrom(earlier + Attributes(s)) == s
  {
    var a := Attributes(s);
    assert earlier + a == (earlier + [a[0]]) + [a[1]];
    assert !("dump" <= "index") && !("index" <= "dump") by { assert "dump"[0] != "index"[0]; }
    LookupAppended(earlier, a[0]);
    LookupAppendedOther(earlier, a[0], "index");
    LookupAppended(earlier + [a[0]], a[1]);
    LookupAppendedOther(earlier + [a[0]], a[1], "dump");
  }

  /** The output string, the unsigned decimal forms of the index and the number joined by ':'. */
  function Label(index: u32, n: u32): string
  {
    Decimal(index as nat) + ":" + Decimal(n as nat)
  }

  /** The output string as the source formats it: `"%d:%d"`, which reads both unsigned values as signed. */
  function LabelAsWritten(index: u32, n: u32): string
  {
    SignedDecimal(AsInt32(index)) + ":" + SignedDecimal(AsInt32(n))
  }

  /** The label splits at its only ':' into the decimal index and the decimal number. */
  lemma LabelFields(index: u32, n: u32)
    ensures var s, k := Label(index, n), |Decimal(index as nat)|;
      k < |s| && s[k] == ':' && (forall j | 0 <= j < |s| && j != k :: s[j] != ':')
      && DecimalValue(s[..k]) == index as nat && DecimalValue(s[k + 1..]) == n as nat
  {
    var s, k := Label(index, n), |Decimal(index as nat)|;
    assert s[..k] == Decimal(index as nat);
    assert s[k + 1..] == Decimal(n as nat);
    DecimalRoundTrip(index as nat);
    DecimalRoundTrip(n as nat);
  }

  /** Both forms fit the 30-character buffer they are printed into, terminator included. */
  lemma LabelFits(index: u32, n: u32)
    ensures |Label(index, n)| < 30 && |LabelAsWritten(index, n)| < 30
  {
    U32Digits(index);
    U32Digits(n);
  }

  /** A 32-bit value has at most 10 digits unsigned, and at most 11 characters signed. */
  lemma U32Digits(x: u32)
    ensures |Decimal(x as nat)| <= 10 && |SignedDecimal(AsInt32(x))| <= 11
  {
    assert Pow10(10) == 10_000_000_000 by {
      assert Pow10(5) == 100_000;
    }
    DecimalLength(x as nat, 10);
    if AsInt32(x) < 0 {
      DecimalLength(-AsInt32(x), 10);
    } else {
      DecimalLength(AsInt32(x), 10);
    }
  }

  /** Below 2^31 the signed conversion prints the same text. */
  lemma LabelAsWrittenAgrees(index: u32, n: u32)
    requires index < 0x8000_0000 && n < 0x8000_0000
    ensures LabelAsWritten(index, n) == Label(index, n)
  {
  }

  /** The largest number is printed as -1 by the source, and as its digits once corrected. */
  lemma LabelAsWrittenNegative()
    ensures LabelAsWritten(0, 0xFFFF_FFFF) == "0:-1"
    ensures '-' !in Label(0, 0xFFFF_FFFF)
  {
    assert AsInt32(0xFFFF_FFFF) == -1;
    assert Decimal(1) == "1" && Decimal(0) == "0";
    var s := Label(0, 0xFFFF_FFFF);
    assert forall j | 0 <= j < |s| :: s[j] != '-' by { LabelFields(0, 0xFFFF_FFFF); }
  }

  /** A replica identity actor: its two queues and its state, None while the C pointer is NULL. */
  class ReplicaIdentity {
    const inport: Fifo
    const outport: Fifo
    var state: Option<ReplicaState>

    ghost predicate Valid()
      reads this, inport, outport
    {
      inport != outport && inport.tokens != outport.tokens && inport.Valid() && outport.Valid()
    }

    constructor (inport: Fifo, outport: Fifo)
      ensures this.inport == inport && this.outport == outport && state == None
    {
      this.inport := inport;
      this.outport := outport;
      state := None;
    }

    /** `init` (and `set_state`, which is `init`): always succeeds, defaulting what is missing or mistyped. */
    method Init(managed: CcList<Value>)
      modifies this`state
      ensures state == Some(StateFrom(managed.items))
    {
      var dump := false;
      var index: u32 := 0;
      var item := managed.Get("dump");
      if item.Some? && item.value.Bool? {
        dump := item.value.b;
      }
      item := managed.Get("index");
      if item.Some? && item.value.UInt? {
        index := item.value.n;
      }
      state := Some(ReplicaState(dump, index));
    }

    /** `did_replicate`: overwrites the index and nothing else. */
    method DidReplicate(index: u32)
      requires state.Some?
      modifies this`state
      ensures state == Some(old(state).value.(index := index))
    {
      state := Some(state.value.(index := index));
    }

    /**
     * `fire`: nothing changes without an input token and an output slot. A
     * next input that is not an unsigned integer is peeked and put back, and
     * the result is false. Otherwise the label of the state's index and that
     * number is written to the out-port and the oldest input token is
     * committed without being freed.
     */
    method Fire() returns (fired: bool)
      requires Valid() && state.Some?
      modifies inport`tentativeReadPos, inport`readPos, inport`released, inport.tokens
      modifies outport`writePos, outport.tokens
      ensures Valid()
      ensures var ready := old(inport.TokensAvailable(1) && outport.SlotsAvailable(1));
        fired == (ready && DecodeUint(old(inport.Next())).Some?)
      ensures !old(inport.TokensAvailable(1) && outport.SlotsAvailable(1)) ==>
        unchanged(inport, outport, inport.tokens, outport.tokens)
      ensures !fired ==> unchanged(outport, outport.tokens, inport.tokens)
      ensures !fired ==> inport.readPos == old(inport.readPos) && inport.released == old(inport.released)
      ensures !fired && old(inport.TokensAvailable(1) && outport.SlotsAvailable(1)) ==> inport.tentativeReadPos == inport.readPos
      ensures fired ==> var out := Label(state.value.index, DecodeUint(old(inport.Next())).value);
        outport.Contents() == old(outport.Contents()) + [Token(Some(Str(out)), EncodedSize(Str(out)))]
      ensures fired ==> old(inport.Contents()) == [old(inport.Oldest())] + inport.Contents() && inport.Peeked() == old(inport.Peeked())
      ensures inport.released == old(inport.released)
    {
      if !inport.TokensAvailable(1) {
        return false;
      }
      if !outport.SlotsAvailable(1) {
        return false;
      }
      var token := inport.Peek();
      var n := DecodeUint(token);
      if n.None? {
        inport.CancelCommit();
        return false;
      }
      var out := Label(state.value.index, n.value);
      var written := outport.Write(Some(Str(out)), EncodedSize(Str(out)));
      if !written {
        // The free slot was checked above, so the source's cancel branch is never taken.
        assert false;
      }
      inport.CommitRead(false);
      fired := true;
    }

    /** `get_attributes`: fails without a state; otherwise appends "dump" and "index". */
    method GetAttributes(managed: CcList<Value>) returns (ok: bool)
      modifies managed
      ensures ok == state.Some?
      ensures ok ==> managed.items == old(managed.items) + Attributes(state.value)
      ensures !ok ==> managed.items == old(managed.items)
    {
      if state.None? {
        return false;
      }
      var s := state.value;
      managed.AddN("dump", 4, Bool(s.dump), EncodedSize(Bool(s.dump)));
      managed.AddN("index", 5, UInt(s.index), EncodedSize(UInt(s.index)));
      assert Prefix("dump", 4) == "dump" && Prefix("index", 5) == "index";
      ok := true;
    }
  }
}
