/**
 * The port token queue of the runtime (runtime/north/cc_fifo.c): a ring of
 * N token slots with three uint32 counters. Tokens between `readPos` and
 * `writePos` are uncommitted; the first `tentativeReadPos - readPos` of them
 * have been peeked and wait for a commit or a cancel. The counters wrap at
 * 2^32 and a position's slot is the position modulo N.
 */
module CcFifo {
  import opened Wrappers
  import opened Machine
  import opened CcToken

  /** N divides 2^32, so `pos % N` continues smoothly when a position wraps. */
  predicate Aligned(n: u32)
  {
    n > 0 && U32 % n as int == 0
  }

  /** In an aligned ring, the slot of `p + k` (wrapped) is `k` slots after the slot of `p`. */
  lemma AlignedSlotShift(p: u32, k: nat, n: u32)
    requires Aligned(n)
    ensures Add32(p, k) as int % n as int == (p as int + k) % n as int
  {
    var x, nn := p as int + k, n as int;
    var m := U32 / nn;
    DivModUnique(U32, nn, m, 0);
    var w := x / U32;
    var a := Add32(p, k) as int;
    assert a == x - U32 * w;
    var q, r := a / nn, a % nn;
    assert a == nn * q + r;
    assert U32 * w == nn * (m * w);
    assert x == nn * (q + m * w) + r;
    DivModUnique(x, nn, q + m * w, r);
  }

  /** Moving fewer than `n` steps forward always changes the remainder modulo `n`. */
  lemma ModShiftDistinct(x: int, d: int, n: int)
    requires n > 0 && 0 < d < n
    ensures x % n != (x + d) % n
  {
    var q, r := x / n, x % n;
    assert x == n * q + r;
    if r + d < n {
      DivModUnique(x + d, n, q, r + d);
    } else {
      assert x + d == n * (q + 1) + (r + d - n);
      DivModUnique(x + d, n, q + 1, r + d - n);
    }
  }

  /** In an aligned ring, fewer than N consecutive positions occupy distinct slots. */
  lemma AlignedSlotsDistinct(p: u32, i: nat, j: nat, n: u32)
    requires Aligned(n) && i < j < n as int
    ensures Add32(p, i) as int % n as int != Add32(p, j) as int % n as int
  {
    AlignedSlotShift(p, i, n);
    AlignedSlotShift(p, j, n);
    ModShiftDistinct(p as int + i, j - i, n as int);
    assert p as int + i + (j - i) == p as int + j;
  }

  /** The commit test as written at cc_fifo.c:156: a plain comparison of the two counters. */
  predicate CommitGuardAsWritten(readPos: u32, tentativeReadPos: u32)
  {
    readPos < tentativeReadPos
  }

  /** The commit test as intended: some token has been peeked since the last commit. */
  predicate CommitGuard(readPos: u32, tentativeReadPos: u32)
  {
    readPos != tentativeReadPos
  }

  /** The corrected test holds exactly when at least one token is peeked, wherever the counters stand. */
  lemma CommitGuardMeansPeeked(readPos: u32, tentativeReadPos: u32)
    ensures CommitGuard(readPos, tentativeReadPos) <==> Sub32(tentativeReadPos, readPos) > 0
  {
  }

  /**
   * The written test refuses the commit of a peeked token once the tentative
   * counter has wrapped past 2^32 and the committed one has not: after one
   * peek at position 2^32 - 1 the token can never be committed.
   */
  lemma CommitRefusedAcrossWrap()
    ensures Sub32(0, 0xFFFF_FFFF) == 1
    ensures !CommitGuardAsWritten(0xFFFF_FFFF, 0) && CommitGuard(0xFFFF_FFFF, 0)
  {
  }

  /** The invalid-cancel test as written at cc_fifo.c:234. */
  predicate CancelRefusedAsWritten(readPos: u32, tentativeReadPos: u32, sequenceNbr: u32)
  {
    sequenceNbr >= tentativeReadPos && sequenceNbr < readPos
  }

  /** The cancel test as intended: `seq` lies between the committed and the tentative counter. */
  predicate CancelAccepted(readPos: u32, tentativeReadPos: u32, sequenceNbr: u32)
  {
    Sub32(sequenceNbr, readPos) <= Sub32(tentativeReadPos, readPos)
  }

  /**
   * The written test only refuses when `tentativeReadPos <= seq < readPos`,
   * which no unwrapped state satisfies; a stale NACK for position 3 after
   * positions up to 5 were committed rewinds the tentative counter behind
   * the committed one, so two already committed tokens count as available.
   */
  lemma StaleCancelAcceptedAsWritten()
    ensures !CancelRefusedAsWritten(5, 5, 3)
    ensures Sub32(5, 3) == 2
    ensures !CancelAccepted(5, 5, 3)
  {
  }

  /**
   * The written test can only refuse once the peek counter has wrapped past
   * 2^32 and the committed counter has not, as with two tokens peeked from
   * position 2^32 - 1 and a NACK for position 5.
   */
  lemma CancelRefusedOnlyAcrossWrap(readPos: u32, tentativeReadPos: u32, sequenceNbr: u32)
    requires CancelRefusedAsWritten(readPos, tentativeReadPos, sequenceNbr)
    ensures tentativeReadPos < readPos
  {
  }

  lemma CancelRefusedAfterWrap()
    ensures Sub32(1, 0xFFFF_FFFF) == 2
    ensures CancelRefusedAsWritten(0xFFFF_FFFF, 1, 5) && !CancelAccepted(0xFFFF_FFFF, 1, 5)
  {
  }

  /** The intended cancel test accepts exactly the positions from the committed to the tentative counter. */
  lemma CancelAcceptedMeaning(readPos: u32, tentativeReadPos: u32, sequenceNbr: u32)
    requires readPos <= tentativeReadPos
    ensures CancelAccepted(readPos, tentativeReadPos, sequenceNbr) <==> readPos <= sequenceNbr <= tentativeReadPos
  {
  }

  /**
   * In a ring of 5 slots (5 does not divide 2^32) the positions 2^32 - 1
   * and 0 share slot 0: a write at position 0 overwrites the unread token
   * at position 2^32 - 1.
   */
  lemma UnalignedWrapCollision()
    ensures !Aligned(5)
    ensures Add32(0xFFFF_FFFF, 1) == 0
    ensures 0xFFFF_FFFF as int % 5 == 0 as int % 5
  {
  }

  /**
   * The collision happens in every ring whose size N divides neither 2^32
   * nor 2^32 + 1. With d the remainder of 2^32 divided by N, position
   * 2^32 - d lands in slot 0, and d steps later the counter has wrapped to
   * 0, which lands in slot 0 again. As d is at most N - 2, both positions
   * fit in the window of N - 1 uncommitted tokens at once, so the write at
   * position 0 overwrites a token not yet read.
   */
  lemma UnalignedSlotsCollide(n: u32)
    requires n > 0 && !Aligned(n) && U32 % n as int != n as int - 1
    ensures var d := U32 % n as int;
      0 < d <= n as int - 2 && Add32((U32 - d) as u32, d) == 0 && (U32 - d) % n as int == 0 as int % n as int
  {
    var nn, d := n as int, U32 % n as int;
    var q := U32 / nn;
    assert U32 == nn * q + d;
    DivModUnique(U32 - d, nn, q, 0);
  }

  /** Moving the read counter one step towards the peek and write counters shortens both distances by one. */
  lemma StepPast(readPos: u32, tentativeReadPos: u32, writePos: u32)
    requires 1 <= Sub32(tentativeReadPos, readPos) <= Sub32(writePos, readPos)
    ensures Sub32(writePos, Add32(readPos, 1)) == Sub32(writePos, readPos) - 1
    ensures Sub32(tentativeReadPos, Add32(readPos, 1)) == Sub32(tentativeReadPos, readPos) - 1
  {
    Sub32Add32(readPos, 1);
    Sub32Split(readPos, writePos, Add32(readPos, 1));
    Sub32Split(readPos, tentativeReadPos, Add32(readPos, 1));
  }

  /** The `count` tokens of a ring `toks` from position `from` on, each read from its slot. */
  ghost function Window(toks: seq<Token>, from: u32, count: nat): (w: seq<Token>)
    requires |toks| > 0
    ensures |w| == count
  {
    seq(count, k requires 0 <= k < count => toks[Add32(from, k) as int % |toks|])
  }

  /** After the oldest slot is overwritten, the slot of position `from + 1 + k` still holds what it held. */
  lemma WindowDropFirstAt(toks: seq<Token>, from: u32, count: nat, x: Token, k: nat)
    requires |toks| < U32 && Aligned(|toks| as u32) && k + 1 < count <= |toks|
    ensures toks[from as int % |toks| := x][Add32(Add32(from, 1), k) as int % |toks|] == toks[Add32(from, k + 1) as int % |toks|]
  {
    Add32Assoc(from, 1, k);
    assert Add32(from, 0) == from;
    AlignedSlotsDistinct(from, 0, k + 1, |toks| as u32);
  }

  /** Clearing the oldest slot and stepping past it drops the first token of the window. */
  lemma WindowDropFirst(toks: seq<Token>, from: u32, count: nat, x: Token)
    requires |toks| < U32 && Aligned(|toks| as u32) && 0 < count <= |toks|
    ensures Window(toks[from as int % |toks| := x], Add32(from, 1), count - 1) == Window(toks, from, count)[1..]
  {
    var toks' := toks[from as int % |toks| := x];
    var after, before := Window(toks', Add32(from, 1), count - 1), Window(toks, from, count)[1..];
    forall k | 0 <= k < count - 1
      ensures after[k] == before[k]
    {
      WindowDropFirstAt(toks, from, count, x, k);
    }
  }

  /** Committing the oldest of the uncommitted tokens: the counters step past it and the window loses its first token. */
  lemma RetireWindow(toks: seq<Token>, readPos: u32, tentativeReadPos: u32, writePos: u32, x: Token)
    requires |toks| < U32 && Aligned(|toks| as u32)
    requires 1 <= Sub32(tentativeReadPos, readPos) <= Sub32(writePos, readPos) < |toks|
    ensures Sub32(writePos, Add32(readPos, 1)) == Sub32(writePos, readPos) - 1
    ensures Sub32(tentativeReadPos, Add32(readPos, 1)) == Sub32(tentativeReadPos, readPos) - 1
    ensures Window(toks[readPos as int % |toks| := x], Add32(readPos, 1), Sub32(writePos, readPos) - 1)
      == Window(toks, readPos, Sub32(writePos, readPos))[1..]
  {
    StepPast(readPos, tentativeReadPos, writePos);
    WindowDropFirst(toks, readPos, Sub32(writePos, readPos), x);
  }


  /** Storing a token in the slot after the window extends the window by that token. */
  lemma WindowAppend(toks: seq<Token>, from: u32, count: nat, t: Token)
    requires |toks| < U32 && Aligned(|toks| as u32) && count < |toks|
    ensures Window(toks[Add32(from, count) as int % |toks| := t], from, count + 1) == Window(toks, from, count) + [t]
  {
    var n := |toks| as u32;
    var toks' := toks[Add32(from, count) as int % |toks| := t];
    var after, before := Window(toks', from, count + 1), Window(toks, from, count) + [t];
    forall k | 0 <= k < count
      ensures after[k] == before[k]
    {
      AlignedSlotsDistinct(from, k, count, n);
    }
  }

  /** The buffer that committing token `t` hands back to the allocator, if any. */
  function Released(freeToken: bool, t: Token): seq<Value>
  {
    if freeToken && Owns(t) then [t.value.value] else []
  }

  class Fifo {
    const size: u32
    const tokens: array<Token>
    var writePos: u32
    var readPos: u32
    var tentativeReadPos: u32
    /** Buffers this queue handed back to the allocator, oldest first. */
    ghost var released: seq<Value>

    /** At most N - 1 uncommitted tokens, and no more peeked than uncommitted. */
    ghost predicate Valid()
      reads this
    {
      Aligned(size) && tokens.Length == size as int
      && Sub32(writePos, readPos) < size as int
      && Sub32(tentativeReadPos, readPos) <= Sub32(writePos, readPos)
    }

    function Slot(pos: u32): nat
      requires size > 0
    {
      pos as int % size as int
    }

    /** Number of uncommitted tokens. */
    ghost function Pending(): nat
      reads this
    {
      Sub32(writePos, readPos)
    }

    /** Number of tokens peeked since the last commit or cancel. */
    ghost function Peeked(): nat
      reads this
    {
      Sub32(tentativeReadPos, readPos)
    }

    /** The uncommitted tokens, oldest first. */
    ghost function Contents(): (s: seq<Token>)
      reads this, tokens
      requires Valid()
      ensures |s| == Pending() < size as int
    {
      Window(tokens[..], readPos, Pending())
    }

    /** The token the next peek hands out. */
    ghost function Next(): Token
      reads this, tokens
      requires Valid() && TokensAvailable(1)
    {
      TokensAvailableMeaning(1);
      Contents()[Peeked()]
    }

    /** The oldest uncommitted token: the one the next commit removes. */
    ghost function Oldest(): Token
      reads this, tokens
      requires Valid() && TokensAvailable(1)
    {
      TokensAvailableMeaning(1);
      Contents()[0]
    }

    /** An empty ring of `n` slots, as `fifo_init` allocates it before loading any tokens. */
    constructor (n: u32)
      requires Aligned(n)
      ensures Valid() && fresh(tokens)
      ensures size == n && Contents() == [] && Peeked() == 0 && released == []
      ensures writePos == 0 && readPos == 0 && tentativeReadPos == 0
    {
      size := n;
      tokens := new Token[n](_ => Empty);
      writePos, readPos, tentativeReadPos := 0, 0, 0;
      released := [];
    }

    /** `fifo_tokens_available`: at least `length` tokens are written and not yet peeked. */
    predicate TokensAvailable(length: u32)
      reads this
    {
      Sub32(writePos, tentativeReadPos) >= length as int
    }

    /** `fifo_slots_available`: at least `length` slots are free. */
    predicate SlotsAvailable(length: u32)
      reads this
      requires size > 0
    {
      size as int - Sub32(writePos, readPos) % size as int - 1 >= length as int
    }

    /** The tokens already peeked are not counted as available. */
    lemma TokensAvailableMeaning(length: u32)
      requires Valid()
      ensures TokensAvailable(length) <==> Pending() - Peeked() >= length as int
    {
      Sub32Split(readPos, writePos, tentativeReadPos);
    }

    /** Free slots are the N - 1 usable ones minus the uncommitted tokens. */
    lemma SlotsAvailableMeaning(length: u32)
      requires Valid()
      ensures SlotsAvailable(length) <==> Pending() + length as int <= size as int - 1
    {
      DivModUnique(Pending(), size as int, 0, Pending());
    }

    /** `fifo_peek`: hands out the token at the tentative position and moves only that counter on. */
    method Peek() returns (t: Token)
      requires Valid() && TokensAvailable(1)
      modifies this`tentativeReadPos
      ensures Valid() && Contents() == old(Contents())
      ensures t == old(Contents())[old(Peeked())]
      ensures Peeked() == old(Peeked()) + 1
      ensures tentativeReadPos == Add32(old(tentativeReadPos), 1)
    {
      TokensAvailableMeaning(1);
      Add32Sub32(readPos, tentativeReadPos);
      t := tokens[Slot(tentativeReadPos)];
      tentativeReadPos := Add32(tentativeReadPos, 1);
      Add32Assoc(readPos, old(Peeked()), 1);
      Sub32Add32(readPos, old(Peeked()) + 1);
    }

    /** `fifo_cancel`: forgets every peek since the last commit. */
    method Cancel()
      requires Valid()
      modifies this`tentativeReadPos
      ensures Valid() && Contents() == old(Contents())
      ensures Peeked() == 0 && tentativeReadPos == readPos
    {
      tentativeReadPos := readPos;
    }

    /** `fifo_cancel_commit`: the same rewind as `fifo_cancel`. */
    method CancelCommit()
      requires Valid()
      modifies this`tentativeReadPos
      ensures Valid() && Contents() == old(Contents())
      ensures Peeked() == 0 && tentativeReadPos == readPos
    {
      tentativeReadPos := readPos;
    }

    /** Empties slot `slot` on commit: its buffer is freed when `freeToken`, otherwise the slot is only detached from it. */
    method ClearSlot(slot: nat, freeToken: bool)
      requires slot < tokens.Length
      modifies this`released, tokens
      ensures tokens[..] == old(tokens[..])[slot := if freeToken && !Owns(old(tokens[slot])) then old(tokens[slot]) else Empty]
      ensures released == old(released) + Released(freeToken, old(tokens[slot]))
    {
      if freeToken {
        var gone := Free(tokens, slot);
        if gone.Some? {
          released := released + [gone.value];
        }
      } else {
        tokens[slot] := Empty;
      }
    }

    /** Removes the oldest uncommitted token, freeing its buffer or only detaching it from the slot. */
    method Retire(freeToken: bool)
      requires Valid() && Peeked() > 0
      modifies this`readPos, this`released, tokens
      ensures Valid()
      ensures Contents() == old(Contents())[1..]
      ensures Peeked() == old(Peeked()) - 1
      ensures readPos == Add32(old(readPos), 1)
      ensures released == old(released) + Released(freeToken, old(Contents())[0])
    {
      var slot := Slot(readPos);
      ghost var before := tokens[..];
      ghost var oldRead, count := readPos, Pending();
      assert before[slot] == Window(before, oldRead, count)[0];
      ClearSlot(slot, freeToken);
      ghost var left := if freeToken && !Owns(before[slot]) then before[slot] else Empty;
      RetireWindow(before, oldRead, tentativeReadPos, writePos, left);
      readPos := Add32(readPos, 1);
    }

    /**
     * `fifo_commit_read` with the intended test: when a token has been
     * peeked, the oldest one is committed (freed when `freeToken`, otherwise
     * detached so that its buffer now belongs to whoever received it); with
     * nothing peeked the queue is unchanged.
     */
    method CommitRead(freeToken: bool)
      requires Valid()
      modifies this`readPos, this`released, tokens
      ensures Valid()
      ensures old(Peeked()) > 0 ==> Contents() == old(Contents())[1..] && Peeked() == old(Peeked()) - 1
      ensures old(Peeked()) > 0 ==> var t := old(Contents())[0];
        released == old(released) + if freeToken && Owns(t) then [t.value.value] else []
      ensures old(Peeked()) == 0 ==> readPos == old(readPos) && tokens[..] == old(tokens[..]) && released == old(released)
    {
      CommitGuardMeansPeeked(readPos, tentativeReadPos);
      if CommitGuard(readPos, tentativeReadPos) {
        Retire(freeToken);
      }
    }

    /** `fifo_commit_read` exactly as written: commits only when `readPos < tentativeReadPos` as plain numbers. */
    method CommitReadAsWritten(freeToken: bool)
      requires Valid()
      modifies this`readPos, this`released, tokens
      ensures Valid()
      ensures CommitGuardAsWritten(old(readPos), old(tentativeReadPos)) ==> Contents() == old(Contents())[1..]
      ensures !CommitGuardAsWritten(old(readPos), old(tentativeReadPos)) ==>
        readPos == old(readPos) && tokens[..] == old(tokens[..]) && released == old(released)
    {
      if CommitGuardAsWritten(readPos, tentativeReadPos) {
        Retire(freeToken);
      }
    }

    /**
     * `fifo_write`: fails and changes nothing without a free slot; otherwise
     * stores the token at the write position's slot and moves only the
     * write counter on.
     */
    method Write(value: Option<Value>, tokenSize: nat) returns (ok: bool)
      requires Valid()
      modifies this`writePos, tokens
      ensures Valid() && released == old(released)
      ensures ok == old(SlotsAvailable(1))
      ensures ok ==> Contents() == old(Contents()) + [Token(value, tokenSize)]
      ensures ok ==> tokens[..] == old(tokens[..])[Slot(old(writePos)) := Token(value, tokenSize)]
      ensures ok ==> writePos == Add32(old(writePos), 1) && Peeked() == old(Peeked())
      ensures !ok ==> writePos == old(writePos) && tokens[..] == old(tokens[..])
    {
      SlotsAvailableMeaning(1);
      if !SlotsAvailable(1) {
        return false;
      }
      ghost var before := tokens[..];
      SetData(tokens, Slot(writePos), value, tokenSize);
      Add32Sub32(readPos, writePos);
      WindowAppend(before, readPos, old(Pending()), Token(value, tokenSize));
      writePos := Add32(writePos, 1);
      Add32Assoc(readPos, old(Pending()), 1);
      Sub32Add32(readPos, old(Pending()) + 1);
      ok := true;
    }

    /** `fifo_com_peek`: a peek that also reports the position it peeked as the sequence number. */
    method ComPeek() returns (t: Token, sequenceNbr: u32)
      requires Valid() && TokensAvailable(1)
      modifies this`tentativeReadPos
      ensures Valid() && Contents() == old(Contents())
      ensures sequenceNbr == old(tentativeReadPos)
      ensures t == old(Contents())[old(Peeked())] && Peeked() == old(Peeked()) + 1
    {
      sequenceNbr := tentativeReadPos;
      t := Peek();
    }

    /**
     * `fifo_com_write`: a sequence number below the write counter is
     * refused without writing; any other is accepted and written if a slot
     * is free, the outcome of that write being ignored.
     */
    method ComWrite(value: Option<Value>, tokenSize: nat, sequenceNbr: u32) returns (ok: bool)
      requires Valid()
      modifies this`writePos, tokens
      ensures Valid() && released == old(released)
      ensures ok == (sequenceNbr >= old(writePos))
      ensures ok && old(SlotsAvailable(1)) ==> Contents() == old(Contents()) + [Token(value, tokenSize)]
      ensures !(ok && old(SlotsAvailable(1))) ==> writePos == old(writePos) && tokens[..] == old(tokens[..])
    {
      if sequenceNbr >= writePos {
        var _ := Write(value, tokenSize);
        return true;
      }
      return false;
    }

    /**
     * `fifo_com_commit_read` (an ACK): commits and frees the oldest token
     * only when `sequenceNbr` is below the tentative counter, equals the
     * committed one, and a token is peeked, all as plain comparisons.
     */
    method ComCommitRead(sequenceNbr: u32)
      requires Valid()
      modifies this`readPos, this`released, tokens
      ensures Valid()
      ensures var go := sequenceNbr < old(tentativeReadPos) && old(readPos) < old(tentativeReadPos) && sequenceNbr == old(readPos);
        (go ==> Contents() == old(Contents())[1..] && readPos == Add32(old(readPos), 1)
                && released == old(released) + (if Owns(old(Contents())[0]) then [old(Contents())[0].value.value] else []))
        && (!go ==> readPos == old(readPos) && tokens[..] == old(tokens[..]) && released == old(released))
    {
      if sequenceNbr >= tentativeReadPos {
        return;
      }
      if readPos < tentativeReadPos && sequenceNbr == readPos {
        Retire(true);
      }
    }

    /**
     * `fifo_com_cancel_read` (a NACK) with the intended test: the tentative
     * counter is rewound to `sequenceNbr` when that lies between the
     * committed and the tentative counter; any other number is refused.
     */
    method ComCancelRead(sequenceNbr: u32)
      requires Valid()
      modifies this`tentativeReadPos
      ensures Valid() && Contents() == old(Contents())
      ensures CancelAccepted(readPos, old(tentativeReadPos), sequenceNbr) ==> tentativeReadPos == sequenceNbr
      ensures !CancelAccepted(readPos, old(tentativeReadPos), sequenceNbr) ==> tentativeReadPos == old(tentativeReadPos)
    {
      if CancelAccepted(readPos, tentativeReadPos, sequenceNbr) {
        tentativeReadPos := sequenceNbr;
      }
    }

    /**
     * `fifo_com_cancel_read` exactly as written: the tentative counter
     * takes `sequenceNbr` unless `tentativeReadPos <= sequenceNbr < readPos`;
     * the queue invariant is not kept in general.
     */
    method ComCancelReadAsWritten(sequenceNbr: u32)
      requires Valid()
      modifies this`tentativeReadPos
      ensures CancelRefusedAsWritten(readPos, old(tentativeReadPos), sequenceNbr) ==> tentativeReadPos == old(tentativeReadPos)
      ensures !CancelRefusedAsWritten(readPos, old(tentativeReadPos), sequenceNbr) ==> tentativeReadPos == sequenceNbr
    {
      if CancelRefusedAsWritten(readPos, tentativeReadPos, sequenceNbr) {
        return;
      }
      tentativeReadPos := sequenceNbr;
    }
  }

  /** A peek followed by a cancel leaves the counters where they were. */
  method PeekCancel(f: Fifo) returns (t: Token)
    requires f.Valid() && f.TokensAvailable(1) && f.Peeked() == 0
    modifies f`tentativeReadPos
    ensures f.Valid() && f.Contents() == old(f.Contents())
    ensures t == old(f.Contents())[0]
    ensures f.tentativeReadPos == old(f.tentativeReadPos) && f.readPos == old(f.readPos) && f.writePos == old(f.writePos)
  {
    t := f.Peek();
    f.Cancel();
  }
}
