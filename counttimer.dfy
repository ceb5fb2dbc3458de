/**
 * The count timer actor (actors/std/cc_actor_counttimer.c): it emits the
 * numbers `count`, `count + 1`, ... up to `steps - 1` on its one out-port,
 * one per timer tick. The first ticks come from one-shot timers re-armed
 * after each token; at `count == start + 2` the one-shot timer is replaced
 * by a repeating one. When `count` reaches `steps` the timer is closed.
 *
 * The state keeps `sleep`, `start` and `steps` as the encoded buffers they
 * arrived in (a `Token`: value and size, with no value for a NULL pointer)
 * and decodes `start` and `steps` each time they are needed.
 */
module CountTimer {
  import opened Wrappers
  import opened Machine
  import opened Text
  import opened CcToken
  import opened CcFifo
  import opened CcCommon
  import opened CcCalvinsys
  import opened ManagedAttributes

  const OnceCapability := "sys.timer.once"
  const RepeatingCapability := "sys.timer.repeating"

  /** The fields of the actor's state structure, as one value. */
  datatype CountState = CountState(timer: string, sleep: Token, start: Token, steps: Token, count: u32, stopped: bool)

  /** The token a step writes for `n`: its encoding as an unsigned integer. */
  function CountToken(n: u32): Token
  {
    Token(Some(UInt(n)), EncodedSize(UInt(n)))
  }

  /** The tokens for `from`, `from + 1`, ..., `from + k - 1`, in that order. */
  function Counts(from: nat, k: nat): (s: seq<Token>)
    requires from + k <= U32
    ensures |s| == k
  {
    if k == 0 then [] else Counts(from, k - 1) + [CountToken((from + k - 1) as u32)]
  }

  /** Two runs of consecutive counts, the second starting where the first ends, make one run. */
  lemma {:induction false} CountsConcat(from: nat, j: nat, k: nat)
    requires from + j + k <= U32
    ensures Counts(from, j) + Counts(from + j, k) == Counts(from, j + k)
  {
    if k > 0 {
      CountsConcat(from, j, k - 1);
      assert Counts(from, j) + Counts(from + j, k)
          == (Counts(from, j) + Counts(from + j, k - 1)) + [CountToken((from + j + k - 1) as u32)];
    }
  }

  /** The i-th token of a run decodes to `from + i`: the numbers come out in order, none skipped or repeated. */
  lemma {:induction false} CountsDecode(from: nat, k: nat)
    requires from + k <= U32
    ensures forall i | 0 <= i < k :: DecodeUint(Counts(from, k)[i]) == Some((from + i) as u32)
  {
    if k > 0 {
      CountsDecode(from, k - 1);
      assert forall i | 0 <= i < k - 1 :: Counts(from, k)[i] == Counts(from, k - 1)[i];
    }
  }

  /** The buffer `cc_list_get(key)` leads to: the item's data and data length, None when there is no item. */
  function Buffer(attrs: seq<Item<Value>>, key: string): (r: Option<Token>)
    ensures r.Some? <==> Lookup(attrs, key).Some?
    ensures r.Some? ==> r.value.value == Lookup(attrs, key)
  {
    match FirstPrefixOf(attrs, key)
    case None => None
    case Some(i) => Some(Token(Some(attrs[i].data), attrs[i].dataLen))
  }

  /** The buffers `init` and `set_state` copy: "sleep", "start" and "steps", all three present. */
  predicate BuffersFound(attrs: seq<Item<Value>>)
  {
    Buffer(attrs, "sleep").Some? && Buffer(attrs, "start").Some? && Buffer(attrs, "steps").Some?
  }

  /** The "count" entry decoded, None when it is missing or not an unsigned integer. */
  function CountEntry(attrs: seq<Item<Value>>): Option<u32>
  {
    var c := Buffer(attrs, "count");
    if c.Some? then DecodeUint(c.value) else None
  }

  /** The state `set_state` restores from saved attributes, when every entry is there and decodes. */
  function Restored(attrs: seq<Item<Value>>): Option<CountState>
  {
    if StrEntry(attrs, "timer").Some? && BuffersFound(attrs) && CountEntry(attrs).Some? then
      Some(CountState(StrEntry(attrs, "timer").value, Buffer(attrs, "sleep").value,
        Buffer(attrs, "start").value, Buffer(attrs, "steps").value, CountEntry(attrs).value, false))
    else None
  }

  /** The entries `get_attributes` appends for a state whose three buffers are present. */
  function Saved(s: CountState): seq<Item<Value>>
    requires s.sleep.value.Some? && s.start.value.Some? && s.steps.value.Some?
  {
    [Entry("timer", Str(s.timer)),
     Item("sleep", s.sleep.value.value, s.sleep.size, true),
     Item("start", s.start.value.value, s.start.size, true),
     Item("steps", s.steps.value.value, s.steps.size, true),
     Entry("count", UInt(s.count))]
  }

  /** None of the five keys of a saved state is matched by an entry of `attrs`. */
  predicate NoSavedKeys(attrs: seq<Item<Value>>)
  {
    forall i | 0 <= i < |SavedKeys| :: FirstPrefixOf(attrs, SavedKeys[i]).None?
  }

  /** The keys of the saved entries, in the order `get_attributes` appends them. */
  const SavedKeys: seq<string> := ["timer", "sleep", "start", "steps", "count"]

  /** No saved key is a prefix of another: any two differ in one of their first three characters. */
  lemma SavedKeysApart(i: nat, j: nat)
    requires i < 5 && j < 5 && i != j
    ensures !(SavedKeys[i] <= SavedKeys[j])
  {
    var a, b := SavedKeys[i], SavedKeys[j];
    assert |a| == |b| == 5;
    assert a[0] != b[0] || a[1] != b[1] || a[2] != b[2];
  }

  /** The saved entries carry the saved keys, in order. */
  lemma SavedIds(s: CountState)
    requires s.sleep.value.Some? && s.start.value.Some? && s.steps.value.Some?
    ensures |Saved(s)| == 5 && forall j | 0 <= j < 5 :: Saved(s)[j].id == SavedKeys[j]
  {
  }

  /** Each key of the saved entries finds its own entry: no key is a prefix of an earlier one. */
  lemma SavedKeyFound(earlier: seq<Item<Value>>, s: CountState, i: nat)
    requires s.sleep.value.Some? && s.start.value.Some? && s.steps.value.Some?
    requires i < 5 && FirstPrefixOf(earlier, SavedKeys[i]).None?
    ensures FirstPrefixOf(earlier + Saved(s), SavedKeys[i]) == Some(|earlier| + i)
    ensures (earlier + Saved(s))[|earlier| + i] == Saved(s)[i]
  {
    var later := Saved(s);
    SavedIds(s);
    forall j | 0 <= j < i
      ensures !(later[j].id <= SavedKeys[i])
    {
      SavedKeysApart(j, i);
    }
    FoundAfter(earlier, later, i, SavedKeys[i]);
  }

  /**
   * Saving a state and restoring it from the saved entries gives the same
   * state back, except that the restored actor is not stopped: the flag is
   * not saved.
   */
  lemma AttributesRoundTrip(earlier: seq<Item<Value>>, s: CountState)
    requires s.sleep.value.Some? && s.start.value.Some? && s.steps.value.Some?
    requires NoSavedKeys(earlier)
    ensures Restored(earlier + Saved(s)) == Some(s.(stopped := false))
  {
    var all := earlier + Saved(s);
    SavedKeyFound(earlier, s, 0);
    SavedKeyFound(earlier, s, 1);
    SavedKeyFound(earlier, s, 2);
    SavedKeyFound(earlier, s, 3);
    SavedKeyFound(earlier, s, 4);
    assert all[|earlier|] == Entry("timer", Str(s.timer));
    assert StrEntry(all, "timer") == Some(s.timer);
    assert all[|earlier| + 1] == Item("sleep", s.sleep.value.value, s.sleep.size, true);
    assert Buffer(all, "sleep") == Some(s.sleep);
    assert all[|earlier| + 2] == Item("start", s.start.value.value, s.start.size, true);
    assert Buffer(all, "start") == Some(s.start);
    assert all[|earlier| + 3] == Item("steps", s.steps.value.value, s.steps.size, true);
    assert Buffer(all, "steps") == Some(s.steps);
    assert all[|earlier| + 4] == Entry("count", UInt(s.count));
    assert CountEntry(all) == Some(s.count);
  }

  /** `step_no_periodic` is due: `count` is below both `start + 3`, a 32-bit sum, and `steps`, and the timer can be read. */
  predicate OneShotDue(count: u32, start: Token, steps: Token, readable: bool)
  {
    var st, sa := DecodeUint(steps), DecodeUint(start);
    st.Some? && sa.Some? && count < Add32(sa.value, 3) && count < st.value && readable
  }

  /** The step at which the one-shot timer is replaced by a repeating one: `count == start + 2`, a 32-bit sum. */
  predicate Reopens(count: u32, start: Token)
  {
    DecodeUint(start).Some? && count == Add32(DecodeUint(start).value, 2)
  }

  /** How one run of `init`, `set_state` or `step_no_periodic` ended. */
  datatype Outcome = Done | Failed | CountUndecodable | Idle | OpenFailed

  /** The result `init` and `set_state` should report. */
  function LoadResult(o: Outcome): CcResult
  {
    if o == Done then Success else Fail
  }

  /** The result they report as written: the undecodable count returns `false`, which is `CC_SUCCESS`. */
  function LoadResultAsWritten(o: Outcome): CcResult
  {
    if o == CountUndecodable then BoolAsResult(false) else LoadResult(o)
  }

  /** What `step_no_periodic` should report: whether it wrote a token. */
  function StepReported(o: Outcome): bool
  {
    o == Done
  }

  /** What it reports as written: a failed reopen returns `CC_FAIL`, which as a bool is true. */
  function StepReportedAsWritten(o: Outcome): bool
  {
    if o == OpenFailed then ResultAsBool(Fail) else StepReported(o)
  }

  /** An undecodable count is a failure, but as written it is reported as a success. */
  lemma UndecodableCountAccepted()
    ensures LoadResult(CountUndecodable) == Fail
    ensures LoadResultAsWritten(CountUndecodable) == Success
  {
  }

  /** A failed reopen writes nothing, but as written it is reported as a firing. */
  lemma FailedReopenReported()
    ensures !StepReported(OpenFailed)
    ensures StepReportedAsWritten(OpenFailed)
  {
  }

  class CountTimerActor {
    const outport: Fifo
    /** Whether the state structure is allocated: the instance state pointer is not NULL. */
    var installed: bool
    var timer: string
    var sleep: Token
    var start: Token
    var steps: Token
    var count: u32
    var stopped: bool

    ghost predicate Valid()
      reads this, outport
    {
      outport.Valid()
    }

    /** The state structure's fields. */
    ghost function Snapshot(): CountState
      reads this
    {
      CountState(timer, sleep, start, steps, count, stopped)
    }

    constructor (outport: Fifo)
      ensures this.outport == outport && !installed
    {
      this.outport := outport;
      installed := false;
      timer, sleep, start, steps, count, stopped := "", Empty, Empty, Empty, 0, false;
    }

    /** `cc_list_get(key)` followed by a copy of the item's data and data length. */
    method GetBuffer(managed: CcList<Value>, key: string) returns (b: Option<Token>)
      ensures b == Buffer(managed.items, key)
    {
      var item := managed.GetNode(key);
      if item.None? {
        return None;
      }
      b := Some(Token(Some(item.value.data), item.value.dataLen));
    }

    /**
     * The body of `init`: a zeroed state is installed first, then the
     * "sleep", "start" and "steps" buffers are copied in; with all three,
     * a one-shot timer is opened with "sleep" as its period (`obj` is the
     * id returned, None for NULL); then "count" is decoded. Each missing
     * piece stops it, leaving what was filled in so far.
     */
    method Load(managed: CcList<Value>, obj: Option<string>) returns (o: Outcome, calls: seq<SysCall>)
      modifies this`installed, this`timer, this`sleep, this`start, this`steps, this`count, this`stopped
      ensures installed && !stopped
      ensures var sl, sa, sp := Buffer(managed.items, "sleep"), Buffer(managed.items, "start"), Buffer(managed.items, "steps");
        sleep == (if sl.Some? then sl.value else Empty)
        && start == (if sl.Some? && sa.Some? then sa.value else Empty)
        && steps == (if BuffersFound(managed.items) then sp.value else Empty)
      ensures calls == if BuffersFound(managed.items) then [OpenCall(OnceCapability, Buffer(managed.items, "sleep").value.value)] else []
      ensures timer == if BuffersFound(managed.items) && obj.Some? then obj.value else ""
      ensures var ready := BuffersFound(managed.items) && obj.Some?;
        o == (if !ready || Buffer(managed.items, "count").None? then Failed
              else if CountEntry(managed.items).None? then CountUndecodable else Done)
      ensures count == if o == Done then CountEntry(managed.items).value else 0
    {
      installed := true;
      timer, sleep, start, steps, count, stopped := "", Empty, Empty, Empty, 0, false;
      calls := [];
      var sleepBuf := GetBuffer(managed, "sleep");
      if sleepBuf.None? {
        return Failed, calls;
      }
      sleep := sleepBuf.value;
      var startBuf := GetBuffer(managed, "start");
      if startBuf.None? {
        return Failed, calls;
      }
      start := startBuf.value;
      var stepsBuf := GetBuffer(managed, "steps");
      if stepsBuf.None? {
        return Failed, calls;
      }
      steps := stepsBuf.value;
      calls := [OpenCall(OnceCapability, sleep.value)];
      if obj.None? {
        return Failed, calls;
      }
      timer := obj.value;
      var countBuf := GetBuffer(managed, "count");
      if countBuf.None? {
        return Failed, calls;
      }
      var n := DecodeUint(countBuf.value);
      if n.None? {
        return CountUndecodable, calls;
      }
      count := n.value;
      stopped := false;
      o := Done;
    }

    /** `init` as intended: it succeeds exactly when every entry is there, the timer opens and the count decodes. */
    method Init(managed: CcList<Value>, obj: Option<string>) returns (r: CcResult, calls: seq<SysCall>)
      modifies this`installed, this`timer, this`sleep, this`start, this`steps, this`count, this`stopped
      ensures installed && !stopped
      ensures r == Success <==> BuffersFound(managed.items) && obj.Some? && CountEntry(managed.items).Some?
      ensures r == Success ==> Snapshot() == CountState(obj.value, Buffer(managed.items, "sleep").value,
        Buffer(managed.items, "start").value, Buffer(managed.items, "steps").value, CountEntry(managed.items).value, false)
      ensures calls == if BuffersFound(managed.items) then [OpenCall(OnceCapability, Buffer(managed.items, "sleep").value.value)] else []
    {
      var o;
      o, calls := Load(managed, obj);
      r := LoadResult(o);
    }

    /** `init` as written: a "count" entry that is not an unsigned integer is reported as a success, with `count` left at zero. */
    method InitAsWritten(managed: CcList<Value>, obj: Option<string>) returns (r: CcResult, calls: seq<SysCall>)
      modifies this`installed, this`timer, this`sleep, this`start, this`steps, this`count, this`stopped
      ensures (BuffersFound(managed.items) && obj.Some? && Buffer(managed.items, "count").Some?
               && CountEntry(managed.items).None?) ==> r == Success && count == 0 && timer == obj.value
    {
      var o;
      o, calls := Load(managed, obj);
      r := LoadResultAsWritten(o);
    }

    /**
     * The body of `set_state`: like `init`, but the timer id is restored
     * from the "timer" string instead of opening a timer, and the three
     * buffers are copied after it.
     */
    method Reload(managed: CcList<Value>) returns (o: Outcome)
      modifies this`installed, this`timer, this`sleep, this`start, this`steps, this`count, this`stopped
      ensures installed && !stopped
      ensures var t := StrEntry(managed.items, "timer");
        timer == (if t.Some? then t.value else "")
      ensures var t, sl, sa, sp := StrEntry(managed.items, "timer"), Buffer(managed.items, "sleep"),
          Buffer(managed.items, "start"), Buffer(managed.items, "steps");
        sleep == (if t.Some? && sl.Some? then sl.value else Empty)
        && start == (if t.Some? && sl.Some? && sa.Some? then sa.value else Empty)
        && steps == (if t.Some? && BuffersFound(managed.items) then sp.value else Empty)
      ensures o == (if StrEntry(managed.items, "timer").None? || !BuffersFound(managed.items)
                      || Buffer(managed.items, "count").None? then Failed
                    else if CountEntry(managed.items).None? then CountUndecodable else Done)
      ensures o == Done <==> Restored(managed.items).Some?
      ensures o == Done ==> Snapshot() == Restored(managed.items).value
      ensures o != Done ==> count == 0
    {
      installed := true;
      timer, sleep, start, steps, count, stopped := "", Empty, Empty, Empty, 0, false;
      var timerId := GetStr(managed, "timer");
      if timerId.None? {
        return Failed;
      }
      timer := timerId.value;
      var sleepBuf := GetBuffer(managed, "sleep");
      if sleepBuf.None? {
        return Failed;
      }
      sleep := sleepBuf.value;
      var startBuf := GetBuffer(managed, "start");
      if startBuf.None? {
        return Failed;
      }
      start := startBuf.value;
      var stepsBuf := GetBuffer(managed, "steps");
      if stepsBuf.None? {
        return Failed;
      }
      steps := stepsBuf.value;
      var countBuf := GetBuffer(managed, "count");
      if countBuf.None? {
        return Failed;
      }
      var n := DecodeUint(countBuf.value);
      if n.None? {
        return CountUndecodable;
      }
      count := n.value;
      stopped := false;
      o := Done;
    }

    /** `set_state` as intended: it succeeds exactly when `Restored` finds a state, and installs that state. */
    method SetState(managed: CcList<Value>) returns (r: CcResult)
      modifies this`installed, this`timer, this`sleep, this`start, this`steps, this`count, this`stopped
      ensures installed
      ensures r == Success <==> Restored(managed.items).Some?
      ensures r == Success ==> Snapshot() == Restored(managed.items).value
    {
      var o := Reload(managed);
      r := LoadResult(o);
    }

    /** `set_state` as written: an undecodable count is reported as a success, with `count` left at zero. */
    method SetStateAsWritten(managed: CcList<Value>) returns (r: CcResult)
      modifies this`installed, this`timer, this`sleep, this`start, this`steps, this`count, this`stopped
      ensures (StrEntry(managed.items, "timer").Some? && BuffersFound(managed.items)
               && Buffer(managed.items, "count").Some? && CountEntry(managed.items).None?) ==> r == Success && count == 0
    {
      var o := Reload(managed);
      r := LoadResultAsWritten(o);
    }

    /**
     * `step_no_periodic`, up to what it reports. It is due while `count`
     * is below both `start + 3` (a 32-bit sum) and `steps`, and the timer
     * can be read (`readable`); otherwise nothing happens. When due, the
     * timer is read; at `count == start + 2` the one-shot timer is closed
     * and a repeating one opened with the same period (`repeating` is the
     * id returned), and a failed open ends the step. Then `count` is
     * written as a token; if the out-port is full that ends the step.
     * Otherwise the timer is re-armed with "sleep" and `count` moves on.
     */
    method NoPeriodic(readable: bool, repeating: Option<string>) returns (o: Outcome, calls: seq<SysCall>)
      requires Valid() && installed
      modifies this`timer, this`count, outport`writePos, outport.tokens
      ensures Valid() && outport.released == old(outport.released)
      ensures !OneShotDue(old(count), start, steps, readable) ==> o == Idle && calls == [] && timer == old(timer)
      ensures OneShotDue(old(count), start, steps, readable) && Reopens(old(count), start) && repeating.None? ==>
        o == OpenFailed && timer == old(timer)
        && calls == [ReadCall(old(timer)), CloseCall(old(timer)), OpenCall(RepeatingCapability, sleep.value)]
      ensures OneShotDue(old(count), start, steps, readable) && !(Reopens(old(count), start) && repeating.None?) ==>
        && o == (if old(outport.SlotsAvailable(1)) then Done else Failed)
        && timer == (if Reopens(old(count), start) then repeating.value else old(timer))
        && calls == (if Reopens(old(count), start)
                     then [ReadCall(old(timer)), CloseCall(old(timer)), OpenCall(RepeatingCapability, sleep.value)]
                     else [ReadCall(old(timer))])
                    + (if o == Done then [WriteCall(timer, sleep.value, sleep.size)] else [])
      ensures o == Done ==> count as int == old(count) as int + 1
      ensures o == Done ==> outport.Contents() == old(outport.Contents()) + [CountToken(old(count))]
      ensures o != Done ==> count == old(count)
      ensures o != Done ==> outport.writePos == old(outport.writePos) && outport.tokens[..] == old(outport.tokens[..])
    {
      var st := DecodeUint(steps);
      if st.None? {
        return Idle, [];
      }
      var sa := DecodeUint(start);
      if sa.None? {
        return Idle, [];
      }
      if count >= Add32(sa.value, 3) || count >= st.value || !readable {
        return Idle, [];
      }
      calls := [ReadCall(timer)];
      if count == Add32(sa.value, 2) {
        calls := calls + [CloseCall(timer), OpenCall(RepeatingCapability, sleep.value)];
        if repeating.None? {
          return OpenFailed, calls;
        }
        timer := repeating.value;
      }
      var written := outport.Write(Some(UInt(count)), EncodedSize(UInt(count)));
      if !written {
        return Failed, calls;
      }
      calls := calls + [WriteCall(timer, sleep.value, sleep.size)];
      count := count + 1;
      o := Done;
    }

    /**
     * `step_periodic`: due while `count` is below `steps` and the timer can
     * be read (`readable`). When due, the timer is read and `count` written
     * as a token; a full out-port ends the step, otherwise `count` moves on.
     */
    method StepPeriodic(readable: bool) returns (fired: bool, calls: seq<SysCall>)
      requires Valid() && installed
      modifies this`count, outport`writePos, outport.tokens
      ensures Valid() && outport.released == old(outport.released)
      ensures var st := DecodeUint(steps);
        var due := st.Some? && old(count) < st.value && readable;
        && calls == (if due then [ReadCall(timer)] else [])
        && fired == (due && old(outport.SlotsAvailable(1)))
      ensures fired ==> count as int == old(count) as int + 1
      ensures fired ==> outport.Contents() == old(outport.Contents()) + [CountToken(old(count))]
      ensures !fired ==> count == old(count)
      ensures !fired ==> outport.writePos == old(outport.writePos) && outport.tokens[..] == old(outport.tokens[..])
    {
      var st := DecodeUint(steps);
      if st.None? {
        return false, [];
      }
      if count >= st.value || !readable {
        return false, [];
      }
      calls := [ReadCall(timer)];
      var written := outport.Write(Some(UInt(count)), EncodedSize(UInt(count)));
      if !written {
        return false, calls;
      }
      count := count + 1;
      fired := true;
    }

    /** `stop`: once `count` equals `steps` it closes the timer and sets `stopped`; a stopped actor never stops again. */
    method Stop() returns (fired: bool, calls: seq<SysCall>)
      requires installed
      modifies this`stopped
      ensures fired == (!old(stopped) && DecodeUint(steps) == Some(count))
      ensures fired ==> stopped && calls == [CloseCall(timer)]
      ensures !fired ==> stopped == old(stopped) && calls == []
    {
      if stopped {
        return false, [];
      }
      var st := DecodeUint(steps);
      if st.None? {
        return false, [];
      }
      if count == st.value {
        calls := [CloseCall(timer)];
        stopped := true;
        return true, calls;
      }
      return false, [];
    }

    /**
     * `fire`: tries `step_no_periodic`, `step_periodic` and `stop` once
     * each, in that order; `readable` and `readableAgain` are what the two
     * `can_read` calls on the timer answer and `repeating` what reopening
     * it returns. The out-port receives exactly the counts passed, in order
     * and at most two of them, `count` never passes `steps`, and the result
     * says whether a token was written or the actor stopped.
     */
    method Fire(readable: bool, repeating: Option<string>, readableAgain: bool) returns (fired: bool, calls: seq<SysCall>)
      requires Valid() && installed
      modifies this`timer, this`count, this`stopped, outport`writePos, outport.tokens
      ensures Valid() && outport.released == old(outport.released)
      ensures old(count) <= count && count as int <= old(count) as int + 2
      ensures outport.Contents() == old(outport.Contents()) + Counts(old(count) as int, (count - old(count)) as int)
      ensures DecodeUint(steps).Some? && old(count) <= DecodeUint(steps).value ==> count <= DecodeUint(steps).value
      ensures old(stopped) ==> stopped
      ensures fired <==> count != old(count) || stopped != old(stopped)
    {
      var o, calls1 := NoPeriodic(readable, repeating);
      var c1 := count;
      var fired2, calls2 := StepPeriodic(readableAgain);
      var fired3, calls3 := Stop();
      fired := StepReported(o) || fired2 || fired3;
      calls := calls1 + calls2 + calls3;
      CountsConcat(old(count) as int, (c1 - old(count)) as int, (count - c1) as int);
    }

    /** `fire` as written: a failed reopen of the timer makes it report a firing although nothing was written. */
    method FireAsWritten(readable: bool, repeating: Option<string>, readableAgain: bool) returns (fired: bool, calls: seq<SysCall>)
      requires Valid() && installed
      modifies this`timer, this`count, this`stopped, outport`writePos, outport.tokens
      ensures Valid()
      ensures OneShotDue(old(count), start, steps, readable) && Reopens(old(count), start) && repeating.None? ==> fired
    {
      var o, calls1 := NoPeriodic(readable, repeating);
      var fired2, calls2 := StepPeriodic(readableAgain);
      var fired3, calls3 := Stop();
      fired := StepReportedAsWritten(o) || fired2 || fired3;
      calls := calls1 + calls2 + calls3;
    }

    /**
     * `get_attributes`: appends the timer id as a string, the three buffers
     * as they are, and `count` encoded. The buffers now belong to the list,
     * so the state's pointers to them are cleared.
     */
    method GetAttributes(managed: CcList<Value>)
      requires installed && sleep.value.Some? && start.value.Some? && steps.value.Some?
      modifies managed, this`sleep, this`start, this`steps
      ensures managed.items == old(managed.items) + Saved(old(Snapshot()))
      ensures sleep == Token(None, old(sleep).size) && start == Token(None, old(start).size)
      ensures steps == Token(None, old(steps).size)
    {
      managed.AddN("timer", 5, Str(timer), EncodedSize(Str(timer)));
      managed.AddN("sleep", 5, sleep.value.value, sleep.size);
      sleep := Token(None, sleep.size);
      managed.AddN("start", 5, start.value.value, start.size);
      start := Token(None, start.size);
      managed.AddN("steps", 5, steps.value.value, steps.size);
      steps := Token(None, steps.size);
      managed.AddN("count", 5, UInt(count), EncodedSize(UInt(count)));
      assert Prefix("timer", 5) == "timer" && Prefix("sleep", 5) == "sleep" && Prefix("start", 5) == "start";
      assert Prefix("steps", 5) == "steps" && Prefix("count", 5) == "count";
    }

    /** `get_requires`: the actor needs both timer capabilities. */
    method GetRequires(required: CcList<Option<Value>>)
      modifies required
      ensures required.items == old(required.items)
        + [Item(OnceCapability, None, 0, true), Item(RepeatingCapability, None, 0, true)]
    {
      required.AddN(OnceCapability, 14, None, 0);
      required.AddN(RepeatingCapability, 19, None, 0);
      assert Prefix(OnceCapability, 14) == OnceCapability && Prefix(RepeatingCapability, 19) == RepeatingCapability;
    }
  }
}
