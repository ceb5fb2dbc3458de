/**
 * The first-generation port queue (fifo.c): a ring of `size` token
 * pointers in a fixed array of MAX_TOKENS slots, with uint32 write, read and
 * tentative-read counters. Unlike the later queue, a read is undone one step
 * at a time (`fifo_commit_read(fifo, false, ...)` moves the tentative
 * counter back by one), and a write over a slot that still holds a token
 * frees that token first.
 *
 * The window properties are stated while the counters have not wrapped
 * (`Unwrapped`): read <= tentative read <= write, fewer than `size` apart.
 */
module LegacyFifo {
  import opened Wrappers
  import opened Machine
  import opened CcCommon

  /** `MAX_TOKENS`: the slots of the fixed token array. */
  const MaxTokens: nat := 5

  /** A first-generation token: serialized bytes, held through a pointer. */
  datatype Token = Token(value: seq<char>)

  /** The `count` slots of `slots` from ring position `from` on, in a ring of `n`; a slot past the end of `slots` is empty. */
  function Window(slots: seq<Option<Token>>, n: nat, from: nat, count: nat): (w: seq<Option<Token>>)
    requires 0 < n
    ensures |w| == count
  {
    seq(count, k requires 0 <= k < count => var i := (from + k) % n; if i < |slots| then slots[i] else None)
  }

  /** Fewer than `n` steps forward always land on another slot. */
  lemma ShiftDistinct(x: int, d: int, n: int)
    requires n > 0 && 0 < d < n
    ensures x % n != (x + d) % n
  {
    var q, r := x / n, x % n;
    assert x == n * q + r;
    if r + d < n {
      DivModUnique(x + d, n, q, r + d);
    } else {
      assert x + d == n * (q + 1) + (r + d - n);
      DivModUnique(x + d, n, q + 1, r + d - n);
    }
  }

  /** Storing in the slot right after the window extends the window by that slot. */
  lemma WindowAppend(slots: seq<Option<Token>>, n: nat, from: nat, count: nat, x: Option<Token>)
    requires 0 < n <= |slots| && count < n
    ensures Window(slots[(from + count) % n := x], n, from, count + 1) == Window(slots, n, from, count) + [x]
  {
    var after, before := Window(slots[(from + count) % n := x], n, from, count + 1), Window(slots, n, from, count) + [x];
    forall k | 0 <= k < count
      ensures after[k] == before[k]
    {
      ShiftDistinct(from + k, count - k, n);
    }
  }

  /** Clearing the first slot of the window and stepping past it drops the window's first entry. */
  lemma WindowDropFirst(slots: seq<Option<Token>>, n: nat, from: nat, count: nat)
    requires 0 < n <= |slots| && 0 < count <= n
    ensures Window(slots[from % n := None], n, from + 1, count - 1) == Window(slots, n, from, count)[1..]
  {
    var after, before := Window(slots[from % n := None], n, from + 1, count - 1), Window(slots, n, from, count)[1..];
    forall k | 0 <= k < count - 1
      ensures after[k] == before[k]
    {
      ShiftDistinct(from, k + 1, n);
      assert from + 1 + k == from + (k + 1);
    }
  }

  /** `fifo_can_write` on the counters: the slot after the write position is not the read position's slot. */
  predicate CanWriteAt(n: u32, writePos: u32, readPos: u32)
    requires n > 0
  {
    Add32(writePos, 1) as int % n as int != readPos as int % n as int
  }

  /** Without wrap-around a ring of `n` slots accepts a write while fewer than `n - 1` tokens are uncommitted. */
  lemma CanWriteMeaning(n: u32, writePos: u32, readPos: u32)
    requires n > 0 && readPos <= writePos && writePos as int - readPos as int < n as int
    requires writePos as int + 1 < U32
    ensures CanWriteAt(n, writePos, readPos) <==> writePos as int - readPos as int < n as int - 1
  {
    var d := writePos as int + 1 - readPos as int;
    if d < n as int {
      ShiftDistinct(readPos as int, d, n as int);
    } else {
      var q, r := readPos as int / n as int, readPos as int % n as int;
      assert readPos as int + d == n as int * (q + 1) + r;
      DivModUnique(readPos as int + d, n as int, q + 1, r);
    }
  }

  class Fifo {
    const tokens: array<Option<Token>>
    const size: u32
    var writePos: u32
    var readPos: u32
    var tentativeReadPos: u32
    /** Tokens this queue handed back to the allocator, oldest first. */
    ghost var freed: seq<Token>

    /** The ring fits the fixed slot array. */
    ghost predicate Valid()
      reads this
    {
      tokens.Length == MaxTokens && 0 < size as int <= MaxTokens
    }

    /** The counters have not wrapped, and fewer than `size` tokens are uncommitted. */
    ghost predicate Unwrapped()
      reads this
    {
      readPos <= tentativeReadPos <= writePos && writePos as int - readPos as int < size as int
    }

    /** The uncommitted slots, oldest first. */
    ghost function Contents(): (s: seq<Option<Token>>)
      reads this, tokens
      requires Valid() && Unwrapped()
      ensures |s| == writePos as int - readPos as int
    {
      Window(tokens[..], size as int, readPos as int, writePos as int - readPos as int)
    }

    /** Every uncommitted slot holds a token. */
    ghost predicate Filled()
      reads this, tokens
      requires Valid() && Unwrapped()
    {
      forall i | 0 <= i < |Contents()| :: Contents()[i].Some?
    }

    /** How many uncommitted tokens have been read since the last commit. */
    ghost function Peeked(): nat
      reads this
      requires Unwrapped()
    {
      tentativeReadPos as int - readPos as int
    }

    function Slot(pos: u32): nat
      reads this
      requires size > 0
    {
      pos as int % size as int
    }

    /** An empty ring of `n` slots. */
    constructor (n: u32)
      requires 0 < n as int <= MaxTokens
      ensures Valid() && Unwrapped() && fresh(tokens) && size == n
      ensures Contents() == [] && freed == []
      ensures forall i | 0 <= i < tokens.Length :: tokens[i].None?
    {
      tokens := new Option<Token>[MaxTokens](_ => None);
      size := n;
      writePos, readPos, tentativeReadPos := 0, 0, 0;
      freed := [];
    }

    /** `fifo_can_read`: some written token has not been read. */
    method CanRead() returns (r: bool)
      requires Valid()
      ensures r <==> tentativeReadPos != writePos
      ensures Unwrapped() ==> (r <==> Peeked() < |Contents()|)
    {
      r := tentativeReadPos != writePos;
    }

    /** `fifo_read`: hands out the tentative position's slot and moves only that counter on. */
    method Read() returns (t: Option<Token>)
      requires Valid()
      modifies this`tentativeReadPos
      ensures t == tokens[Slot(old(tentativeReadPos))]
      ensures tentativeReadPos == Add32(old(tentativeReadPos), 1)
      ensures old(Unwrapped()) && old(Peeked() < |Contents()|) ==>
        Unwrapped() && Contents() == old(Contents()) && t == Contents()[old(Peeked())] && Peeked() == old(Peeked()) + 1
    {
      t := tokens[Slot(tentativeReadPos)];
      tentativeReadPos := Add32(tentativeReadPos, 1);
    }

    /**
     * `fifo_commit_read`. With `commit`, the read position's slot is
     * emptied (its token freed when `deleteToken`, otherwise handed over)
     * and the read counter moves on, but only when the slot holds a token.
     * Without `commit`, the tentative counter steps back by one.
     */
    method CommitRead(commit: bool, deleteToken: bool)
      requires Valid()
      modifies this`readPos, this`tentativeReadPos, this`freed, tokens
      ensures var t := old(tokens[Slot(readPos)]);
        commit && t.Some? ==>
          tokens[..] == old(tokens[..])[Slot(old(readPos)) := None] && readPos == Add32(old(readPos), 1)
          && tentativeReadPos == old(tentativeReadPos) && freed == old(freed) + (if deleteToken then [t.value] else [])
      ensures commit && old(tokens[Slot(readPos)]).None? ==>
        tokens[..] == old(tokens[..]) && readPos == old(readPos) && tentativeReadPos == old(tentativeReadPos) && freed == old(freed)
      ensures !commit ==>
        tokens[..] == old(tokens[..]) && readPos == old(readPos) && freed == old(freed)
        && tentativeReadPos as int == (old(tentativeReadPos) as int - 1) % U32
      ensures old(Unwrapped()) && old(Peeked()) > 0 && commit && old(tokens[Slot(readPos)]).Some? ==>
        Unwrapped() && Contents() == old(Contents())[1..] && Peeked() == old(Peeked()) - 1
      ensures old(Unwrapped()) && old(Peeked()) > 0 && !commit ==>
        Unwrapped() && Contents() == old(Contents()) && Peeked() == old(Peeked()) - 1
    {
      if commit {
        if tokens[Slot(readPos)].Some? {
          Retire(deleteToken);
        }
      } else {
        StepBack();
      }
    }

    /** The commit branch of `fifo_commit_read` when the read position's slot holds a token. */
    method Retire(deleteToken: bool)
      requires Valid() && tokens[Slot(readPos)].Some?
      modifies this`readPos, this`freed, tokens
      ensures var t := old(tokens[Slot(readPos)]);
        tokens[..] == old(tokens[..])[Slot(old(readPos)) := None] && readPos == Add32(old(readPos), 1)
        && freed == old(freed) + (if deleteToken then [t.value] else [])
      ensures old(Unwrapped()) && old(Peeked()) > 0 ==>
        Unwrapped() && Contents() == old(Contents())[1..] && Peeked() == old(Peeked()) - 1
    {
      var slot := Slot(readPos);
      var t := tokens[slot];
      ghost var before, from, count := tokens[..], readPos as int, writePos as int - readPos as int;
      ghost var go := Unwrapped() && Peeked() > 0;
      if deleteToken {
        freed := freed + [t.value];
      }
      tokens[slot] := None;
      readPos := Add32(readPos, 1);
      if go {
        assert readPos as int == from + 1;
        WindowDropFirst(before, size as int, from, count);
      }
    }

    /** The rollback branch of `fifo_commit_read`: the tentative counter steps back by one, wrapping below 0. */
    method StepBack()
      requires Valid()
      modifies this`tentativeReadPos
      ensures tentativeReadPos as int == (old(tentativeReadPos) as int - 1) % U32
      ensures old(Unwrapped()) && old(Peeked()) > 0 ==> Unwrapped() && Peeked() == old(Peeked()) - 1
    {
      tentativeReadPos := ((tentativeReadPos as int - 1) % U32) as u32;
    }

    /** `fifo_can_write`. */
    method CanWrite() returns (r: bool)
      requires Valid()
      ensures r == CanWriteAt(size, writePos, readPos)
    {
      r := Add32(writePos, 1) as int % size as int != readPos as int % size as int;
    }

    /**
     * `fifo_write`: fails and changes nothing when the ring is full;
     * otherwise frees a token left in the write position's slot, stores the
     * new one there and moves only the write counter on.
     */
    method Write(t: Option<Token>) returns (r: CcResult)
      requires Valid()
      modifies this`writePos, this`freed, tokens
      ensures r != PendingResult && (r == Success <==> old(CanWriteAt(size, writePos, readPos)))
      ensures r == Fail ==> tokens[..] == old(tokens[..]) && writePos == old(writePos) && freed == old(freed)
      ensures r == Success ==> var stale := old(tokens[Slot(writePos)]);
        tokens[..] == old(tokens[..])[Slot(old(writePos)) := t] && writePos == Add32(old(writePos), 1)
        && freed == old(freed) + (if stale.Some? then [stale.value] else [])
      ensures old(Unwrapped()) && r == Success && old(writePos) as int + 1 < U32 ==>
        Unwrapped() && Contents() == old(Contents()) + [t] && Peeked() == old(Peeked())
    {
      var ok := CanWrite();
      if !ok {
        return Fail;
      }
      var slot := Slot(writePos);
      if tokens[slot].Some? {
        freed := freed + [tokens[slot].value];
      }
      ghost var before, from, count := tokens[..], readPos as int, writePos as int - readPos as int;
      ghost var grows := Unwrapped() && writePos as int + 1 < U32;
      tokens[slot] := t;
      assert tokens[..] == before[slot := t];
      writePos := Add32(writePos, 1);
      r := Success;
      if grows {
        CanWriteMeaning(size, old(writePos), readPos);
        assert slot == (from + count) % size as int;
        WindowAppend(before, size as int, from, count, t);
      }
    }
  }

  /** A read rolled back at once leaves the counters and the slots as they were. */
  method ReadRollback(f: Fifo) returns (t: Option<Token>)
    requires f.Valid() && f.Unwrapped() && f.Peeked() < |f.Contents()|
    modifies f`readPos, f`tentativeReadPos, f`freed, f.tokens
    ensures f.tokens[..] == old(f.tokens[..]) && f.freed == old(f.freed)
    ensures f.readPos == old(f.readPos) && f.tentativeReadPos == old(f.tentativeReadPos) && f.writePos == old(f.writePos)
    ensures t == old(f.Contents())[old(f.Peeked())]
  {
    t := f.Read();
    f.CommitRead(false, false);
  }

  /** What `create_fifo` decodes from a serialized queue; None is a missing or mistyped entry. */
  datatype Serialized = Serialized(
    queuetype: Option<string>,
    readers: Option<seq<string>>,
    n: Option<u32>,
    writePos: Option<u32>,
    tentativeReadPos: Option<map<string, u32>>,
    readPos: Option<map<string, u32>>,
    fifo: Option<seq<Option<Token>>>)

  /** The counters of a serialized queue: size, write, tentative read and read position. */
  datatype Counters = Counters(n: u32, writePos: u32, tentativeReadPos: u32, readPos: u32)

  /**
   * The checks of `create_fifo` before any token is loaded: the queue type
   * must be "fanout_fifo", there must be a first reader, and the size, the
   * write position and that reader's tentative and read positions must
   * decode.
   */
  function DecodeCounters(obj: Serialized): (r: Option<Counters>)
    ensures r.Some? ==> obj.queuetype == Some("fanout_fifo") && obj.readers.Some? && |obj.readers.value| > 0
  {
    if obj.queuetype != Some("fanout_fifo") || obj.readers.None? || |obj.readers.value| == 0
      || obj.n.None? || obj.writePos.None? || obj.tentativeReadPos.None? || obj.readPos.None? then None
    else
      var reader := obj.readers.value[0];
      if reader !in obj.tentativeReadPos.value || reader !in obj.readPos.value then None
      else Some(Counters(obj.n.value, obj.writePos.value, obj.tentativeReadPos.value[reader], obj.readPos.value[reader]))
  }

  /** A queue type other than "fanout_fifo" is refused. */
  lemma OtherQueueTypeRefused(obj: Serialized)
    requires obj.queuetype.Some? && obj.queuetype.value != "fanout_fifo"
    ensures DecodeCounters(obj).None?
  {
  }

  /**
   * The slots `create_fifo` loads as written: from the read position's
   * slot up to, not including, the write position's slot, with no wrap and
   * no bound by MAX_TOKENS.
   */
  predicate LoadedAsWritten(c: Counters, i: nat)
    requires c.n > 0
  {
    c.readPos as int % c.n as int <= i < c.writePos as int % c.n as int
  }

  /**
   * A ring of 4 slots whose two uncommitted tokens sit at positions 3 and
   * 4 (slots 3 and 0): the written loop runs from slot 3 up to slot 0, so
   * it loads nothing, though both tokens are to be read.
   */
  lemma WrappedWindowLost()
    ensures var c := Counters(4, 5, 3, 3);
      (forall i: nat :: !LoadedAsWritten(c, i))
      && Window([Some(Token("a")), None, None, Some(Token("b"))], 4, 3, 2) == [Some(Token("b")), Some(Token("a"))]
  {
  }

  /** A ring of 8 slots with 7 tokens: the written loop stores into slots 5 and 6, past the 5-slot array. */
  lemma OversizedRingOverflows()
    ensures var c := Counters(8, 7, 0, 0);
      LoadedAsWritten(c, 5) && LoadedAsWritten(c, 6) && 6 >= MaxTokens
  {
  }

  /** Slot `i` of a ring of `n` lies in the `count` slots from position `from` on. */
  predicate InWindow(n: nat, from: nat, count: nat, i: nat)
    requires n > 0
  {
    i < n && (i - from) % n < count
  }

  /** The fixed slot array after loading the window of `count` slots from `from` out of the serialized slots. */
  function Loaded(slots: seq<Option<Token>>, n: nat, from: nat, count: nat): (r: seq<Option<Token>>)
    requires n > 0
    ensures |r| == MaxTokens
  {
    seq(MaxTokens, i requires 0 <= i < MaxTokens =>
      if InWindow(n, from, count, i) && i < |slots| then slots[i] else None)
  }

  /** Position `from + k` of the window lands in slot `(from + k) % n`, which is window slot number `k`. */
  lemma WindowSlot(n: nat, from: nat, k: nat)
    requires 0 < n && k < n
    ensures ((from + k) % n - from) % n == k
  {
    var q := (from + k) / n;
    assert (from + k) % n - from == n * (-q) + k;
    DivModUnique((from + k) % n - from, n, -q, k);
  }

  /** Only slot `(from + k) % n` is window slot number `k`. */
  lemma WindowSlotUnique(n: nat, from: nat, k: nat, i: nat)
    requires 0 < n && i < n && (i - from) % n == k
    ensures i == (from + k) % n
  {
    var q := (i - from) / n;
    assert i - from == n * q + k;
    DivModUnique(from + k, n, -q, i);
  }

  /** Loading one more position adds exactly its slot. */
  lemma LoadedStep(slots: seq<Option<Token>>, n: nat, from: nat, k: nat)
    requires 0 < n <= MaxTokens && k < n
    ensures Loaded(slots, n, from, k + 1) ==
      Loaded(slots, n, from, k)[(from + k) % n := if (from + k) % n < |slots| then slots[(from + k) % n] else None]
  {
    var j := (from + k) % n;
    var after := Loaded(slots, n, from, k + 1);
    var before := Loaded(slots, n, from, k)[j := if j < |slots| then slots[j] else None];
    WindowSlot(n, from, k);
    forall i | 0 <= i < MaxTokens
      ensures after[i] == before[i]
    {
      if i != j && i < n && (i - from) % n == k {
        WindowSlotUnique(n, from, k, i);
      }
    }
  }

  /** Loading the window and reading it back gives the serialized window. */
  lemma LoadRestoresWindow(slots: seq<Option<Token>>, n: nat, from: nat, count: nat)
    requires 0 < n <= MaxTokens && count <= n
    ensures Window(Loaded(slots, n, from, count), n, from, count) == Window(slots, n, from, count)
  {
    forall k | 0 <= k < count
      ensures Window(Loaded(slots, n, from, count), n, from, count)[k] == Window(slots, n, from, count)[k]
    {
      WindowSlot(n, from, k);
    }
  }

  /**
   * `create_fifo` with the loading the queue needs: a size of 0 or above
   * MAX_TOKENS is refused, and the uncommitted positions from the read
   * counter to the write counter are loaded into their slots, across the
   * end of the ring too. Each must be present and decode; any failure frees
   * what was loaded and gives null.
   */
  method CreateFifo(obj: Serialized) returns (r: CcResult, f: Fifo?)
    ensures r != PendingResult && (r == Success <==> f != null)
    ensures f != null ==> fresh(f) && fresh(f.tokens) && f.Valid() && f.freed == []
    ensures f != null ==> DecodeCounters(obj).Some? && var c := DecodeCounters(obj).value;
      f.size == c.n && f.writePos == c.writePos && f.tentativeReadPos == c.tentativeReadPos && f.readPos == c.readPos
    ensures f != null && f.Unwrapped() && f.tentativeReadPos != f.writePos ==>
      obj.fifo.Some? && f.Contents() == Window(obj.fifo.value, f.size as int, f.readPos as int, f.writePos as int - f.readPos as int)
    ensures DecodeCounters(obj).None? ==> f == null
  {
    var c := DecodeCounters(obj);
    if c.None? || c.value.n == 0 || c.value.n as int > MaxTokens {
      return Fail, null;
    }
    var n, w, t, rp := c.value.n, c.value.writePos, c.value.tentativeReadPos, c.value.readPos;
    f := new Fifo(n);
    f.writePos, f.tentativeReadPos, f.readPos := w, t, rp;
    if t != w {
      if obj.fifo.None? {
        return Fail, null;
      }
      var slots := obj.fifo.value;
      var count := Sub32(w, rp);
      if count > n as int {
        count := n as int;
      }
      var ok := LoadWindow(f, slots, count);
      if !ok {
        return Fail, null;
      }
      if f.Unwrapped() {
        assert count == w as int - rp as int;
        LoadRestoresWindow(slots, n as int, rp as int, count);
      }
    }
    r := Success;
  }

  /** The loading loop of `CreateFifo`: positions `readPos` to `readPos + count` into their slots; false at the first missing or undecodable one. */
  method LoadWindow(f: Fifo, slots: seq<Option<Token>>, count: nat) returns (ok: bool)
    requires f.Valid() && count <= f.size as int
    requires forall i | 0 <= i < f.tokens.Length :: f.tokens[i].None?
    modifies f.tokens
    ensures ok ==> f.tokens[..] == Loaded(slots, f.size as int, f.readPos as int, count)
  {
    var n, from := f.size as int, f.readPos as int;
    assert f.tokens[..] == Loaded(slots, n, from, 0);
    var k := 0;
    while k < count
      invariant 0 <= k <= count && f.tokens[..] == Loaded(slots, n, from, k)
    {
      var i := (from + k) % n;
      if i >= |slots| || slots[i].None? {
        return false;
      }
      LoadedStep(slots, n, from, k);
      f.tokens[i] := slots[i];
      k := k + 1;
    }
    ok := true;
  }
}
