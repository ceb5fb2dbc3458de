/**
 * The lwIP TCP transport (runtime/south/transport/lwip/cc_transport_lwip.c):
 * the peer's IPv6 link-local address is derived from a MAC address, data
 * the TCP stack delivers is gathered in a fixed receive buffer of
 * `RxBufferSize` bytes, and `send` hands the stack as much as its send
 * buffer takes at a time.
 *
 * The TCP stack is outside the model: what `tcp_sndbuf` and `tcp_write`
 * answer are parameters, and the event waits are left out.
 */
module CcTransportLwip {
  import opened Wrappers
  import opened Machine
  import opened CcTransport

  /** A digit `strtol` accepts in base 16; any other character ends the number. */
  predicate IsHex(c: char)
  {
    '0' <= c <= '9' || 'a' <= c <= 'f' || 'A' <= c <= 'F'
  }

  function HexDigitValue(c: char): nat
    requires IsHex(c)
  {
    if '0' <= c <= '9' then (c - '0') as nat
    else if 'a' <= c <= 'f' then (c - 'a') as nat + 10
    else (c - 'A') as nat + 10
  }

  /** The number the leading hexadecimal digits of `s` spell. */
  function HexPrefixValue(s: string): nat
  {
    HexDigitsValue(s, HexRunLength(s, 0))
  }

  /** How many hexadecimal digits start at `from`. */
  function HexRunLength(s: string, from: nat): (n: nat)
    requires from <= |s|
    decreases |s| - from
    ensures from + n <= |s| && forall i | from <= i < from + n :: IsHex(s[i])
    ensures from + n < |s| ==> !IsHex(s[from + n])
  {
    if from == |s| || !IsHex(s[from]) then 0 else 1 + HexRunLength(s, from + 1)
  }

  function HexDigitsValue(s: string, n: nat): nat
    requires n <= |s| && forall i | 0 <= i < n :: IsHex(s[i])
  {
    if n == 0 then 0 else 16 * HexDigitsValue(s, n - 1) + HexDigitValue(s[n - 1])
  }

  /** `(unsigned char)strtol(s, NULL, 16)` for a column of hexadecimal digits. */
  function Column(mac: string, k: nat): (r: u8)
    requires 3 * k <= |mac|
  {
    (HexPrefixValue(mac[3 * k..]) % U8) as u8
  }

  /** `b ^ (1 << 1)`: bit 1, the universal/local bit, flipped; written with arithmetic on the bit's value. */
  function FlipLocal(b: u8): u8
  {
    if (b as int / 2) % 2 == 1 then b - 2 else b + 2
  }

  /** A lower-case hexadecimal digit, as `%lx` writes it. */
  function HexDigit(d: nat): (c: char)
    requires d < 16
    ensures IsHex(c) && HexDigitValue(c) == d
  {
    if d < 10 then ('0' as int + d) as char else ('a' as int + d - 10) as char
  }

  /** `%02lx` of a byte: two lower-case hexadecimal digits. */
  function Hex2(b: u8): (r: string)
    ensures |r| == 2
  {
    [HexDigit(b as int / 16), HexDigit(b as int % 16)]
  }

  /**
   * `cc_transport_lwip_convert_mac_to_link_local`: the six columns of
   * "aa:bb:cc:dd:ee:ff" read as bytes, the first with its universal/local
   * bit flipped, written into "fe80::%02lx%02lx:%02lxff:fe%02lx:%02lx%02lx".
   */
  function LinkLocal(mac: string): (ip: string)
    requires |mac| >= 15
    ensures |ip| == 25
  {
    "fe80::" + Hex2(FlipLocal(Column(mac, 0))) + Hex2(Column(mac, 1)) + ":"
      + Hex2(Column(mac, 2)) + "ff" + ":" + "fe" + Hex2(Column(mac, 3)) + ":"
      + Hex2(Column(mac, 4)) + Hex2(Column(mac, 5))
  }

  /** A MAC address written as six colon-separated pairs of hexadecimal digits. */
  function MacText(mac: seq<u8>): (s: string)
    requires |mac| == 6
    ensures |s| == 17
  {
    seq(17, i requires 0 <= i < 17 => if i % 3 == 2 then ':' else Hex2(mac[i / 3])[i % 3])
  }

  /**
   * The Modified EUI-64 interface identifier of a 48-bit MAC address
   * (appendix A of RFC 4291): 0xFF 0xFE inserted in the middle and the
   * universal/local bit of the first octet inverted.
   */
  function InterfaceId(mac: seq<u8>): (id: seq<u8>)
    requires |mac| == 6
    ensures |id| == 8
  {
    [FlipLocal(mac[0]), mac[1], mac[2], 0xFF, 0xFE, mac[3], mac[4], mac[5]]
  }

  /** An IPv6 address in the link-local prefix fe80::/64 (section 2.5.6 of RFC 4291) with the given 64-bit interface identifier, as four groups of four hexadecimal digits. */
  function LinkLocalAddress(id: seq<u8>): string
    requires |id| == 8
  {
    "fe80::" + Hex2(id[0]) + Hex2(id[1]) + ":" + Hex2(id[2]) + Hex2(id[3]) + ":"
      + Hex2(id[4]) + Hex2(id[5]) + ":" + Hex2(id[6]) + Hex2(id[7])
  }

  /** Two hexadecimal digits not followed by a third read back as the byte they were written from. */
  lemma HexPairValue(s: string, b: u8)
    requires |s| >= 2 && s[0] == HexDigit(b as int / 16) && s[1] == HexDigit(b as int % 16)
    requires |s| == 2 || !IsHex(s[2])
    ensures HexPrefixValue(s) == b as int
  {
    assert HexRunLength(s, 2) == 0;
    assert HexRunLength(s, 0) == 2;
    assert HexDigitsValue(s, 1) == b as int / 16;
  }

  /** The column `k` of a MAC written by `MacText` reads back as its byte. */
  lemma ColumnOfMacText(mac: seq<u8>, k: nat)
    requires |mac| == 6 && k < 6
    ensures Column(MacText(mac), k) == mac[k]
  {
    var s := MacText(mac)[3 * k..];
    assert (3 * k) / 3 == k && (3 * k) % 3 == 0;
    assert (3 * k + 1) / 3 == k && (3 * k + 1) % 3 == 1;
    assert (3 * k + 2) % 3 == 2;
    assert s[0] == MacText(mac)[3 * k] && s[1] == MacText(mac)[3 * k + 1];
    assert k < 5 ==> s[2] == MacText(mac)[3 * k + 2];
    HexPairValue(s, mac[k]);
  }

  /** The address derived from a MAC is fe80:: followed by its Modified EUI-64 interface identifier. */
  lemma LinkLocalIsModifiedEui64(mac: seq<u8>)
    requires |mac| == 6
    ensures LinkLocal(MacText(mac)) == LinkLocalAddress(InterfaceId(mac))
  {
    ColumnOfMacText(mac, 0);
    ColumnOfMacText(mac, 1);
    ColumnOfMacText(mac, 2);
    ColumnOfMacText(mac, 3);
    ColumnOfMacText(mac, 4);
    ColumnOfMacText(mac, 5);
    assert Hex2(0xFF) == "ff" && Hex2(0xFE) == "fe";
  }

  /** Flipping the universal/local bit twice restores the byte, so the MAC can be recovered from the address. */
  lemma FlipLocalTwice(b: u8)
    ensures FlipLocal(FlipLocal(b)) == b
  {
    var n := b as int;
    if (n / 2) % 2 == 1 {
      assert (n - 2) / 2 == n / 2 - 1;
    } else {
      assert (n + 2) / 2 == n / 2 + 1;
    }
  }

  /** The lwIP client's receive buffer: `rxBuffer` holds the bytes delivered and not yet read. */
  class LwipClient {
    var rxBuffer: seq<u8>

    predicate Valid()
      reads this
    {
      |rxBuffer| <= RxBufferSize
    }

    /** `cc_transport_lwip_create`: the receive buffer starts empty. */
    constructor ()
      ensures Valid() && rxBuffer == []
    {
      rxBuffer := [];
    }

    /** `cc_transport_lwip_has_data`. */
    method HasData() returns (r: bool)
      ensures r <==> |rxBuffer| > 0
    {
      r := |rxBuffer| > 0;
    }

    /**
     * `cc_transport_lwip_data_handler`: with no error, the delivered bytes
     * are appended when they fit in what is left of the buffer and dropped
     * otherwise; the error code is handed back either way.
     */
    method DataHandler(ok: bool, payload: seq<u8>) returns (accepted: bool)
      requires Valid()
      modifies this`rxBuffer
      ensures Valid()
      ensures accepted <==> ok && |payload| <= RxBufferSize - |old(rxBuffer)|
      ensures rxBuffer == if accepted then old(rxBuffer) + payload else old(rxBuffer)
    {
      accepted := false;
      if ok {
        if |payload| > RxBufferSize - |rxBuffer| {
          return;
        }
        rxBuffer := rxBuffer + payload;
        accepted := true;
      }
    }

    /**
     * `cc_transport_lwip_recv` once data is there: a caller's buffer of
     * `size` bytes smaller than what is buffered gives -1 and keeps the
     * data; otherwise all of it is handed over and the buffer is emptied.
     */
    method Recv(size: nat) returns (ret: int, data: seq<u8>)
      requires |rxBuffer| > 0
      modifies this`rxBuffer
      ensures size < |old(rxBuffer)| ==> ret == -1 && data == [] && rxBuffer == old(rxBuffer)
      ensures size >= |old(rxBuffer)| ==> ret == |old(rxBuffer)| && data == old(rxBuffer) && rxBuffer == []
    {
      if size < |rxBuffer| {
        return -1, [];
      }
      data := rxBuffer;
      ret := |rxBuffer|;
      rxBuffer := [];
    }
  }

  /** The bytes arriving in several deliveries all reach the reader, in order, when they fit the buffer together. */
  lemma DeliveriesConcatenate(before: seq<u8>, first: seq<u8>, second: seq<u8>)
    requires |before| + |first| + |second| <= RxBufferSize
    ensures |first| <= RxBufferSize - |before|
    ensures |second| <= RxBufferSize - |before + first|
    ensures (before + first) + second == before + (first + second)
  {
  }

  function Min(a: nat, b: nat): nat
  {
    if a < b then a else b
  }

  /** The chunk sizes `send` writes for `remaining` bytes when the send buffer has room `space[i]` at the i-th write. */
  function Chunks(remaining: nat, space: seq<nat>): (c: seq<nat>)
    ensures |c| <= |space|
  {
    if remaining == 0 || |space| == 0 then []
    else [Min(space[0], remaining)] + Chunks(remaining - Min(space[0], remaining), space[1..])
  }

  function Sum(c: seq<nat>): nat
  {
    if |c| == 0 then 0 else c[0] + Sum(c[1..])
  }

  /** With room for at least one byte at every write and enough writes, the chunks add up to the whole message. */
  lemma {:induction false} ChunksCover(remaining: nat, space: seq<nat>)
    requires forall i | 0 <= i < |space| :: space[i] > 0
    requires |space| >= remaining
    ensures Sum(Chunks(remaining, space)) == remaining
  {
    if remaining > 0 {
      var m := Min(space[0], remaining);
      ChunksCover(remaining - m, space[1..]);
    }
  }

  /**
   * `cc_transport_lwip_send` of `size` bytes: each round writes
   * min(send-buffer room, bytes left), where `space[i]` is the room
   * `tcp_sndbuf` reports and `ok[i]` whether `tcp_write` accepts the i-th
   * chunk. The first refused write gives -1; otherwise the result is the
   * number of bytes written. `writes` are the chunk sizes handed to
   * `tcp_write`. Room is taken to be positive, as once the previous write
   * has completed.
   */
  method Send(size: nat, space: seq<nat>, ok: seq<bool>) returns (ret: int, writes: seq<nat>)
    requires |ok| == |space| >= size
    requires forall i | 0 <= i < |space| :: space[i] > 0
    ensures ret == size <==> forall i | 0 <= i < |Chunks(size, space)| :: ok[i]
    ensures ret == size ==> writes == Chunks(size, space) && Sum(writes) == size
    ensures ret != size ==> (ret == -1 && 0 < |writes| && writes <= Chunks(size, space)
      && !ok[|writes| - 1] && forall i | 0 <= i < |writes| - 1 :: ok[i])
  {
    var failed;
    failed, writes := WriteRounds(size, space, ok);
    ret := if failed then -1 else size;
    ChunksCover(size, space);
  }

  /** The loop of `cc_transport_lwip_send`: whether a write was refused, and the chunk sizes handed to `tcp_write`. */
  method WriteRounds(size: nat, space: seq<nat>, ok: seq<bool>) returns (failed: bool, writes: seq<nat>)
    requires |ok| == |space| >= size
    requires forall i | 0 <= i < |space| :: space[i] > 0
    ensures !failed ==> writes == Chunks(size, space) && forall i | 0 <= i < |writes| :: ok[i]
    ensures failed ==> (0 < |writes| && writes <= Chunks(size, space)
      && !ok[|writes| - 1] && forall i | 0 <= i < |writes| - 1 :: ok[i])
  {
    var written := 0;
    var k := 0;
    writes := [];
    while written < size
      invariant 0 <= written <= size && k <= |space| && |writes| == k
      invariant writes + Chunks(size - written, space[k..]) == Chunks(size, space)
      invariant forall i | 0 <= i < k :: ok[i]
      invariant |space| - k >= size - written
      decreases size - written
    {
      var toWrite := Min(space[k], size - written);
      ChunksStep(writes, size - written, space, k);
      writes := writes + [toWrite];
      if !ok[k] {
        return true, writes;
      }
      written := written + toWrite;
      k := k + 1;
    }
    assert writes + [] == writes;
    return false, writes;
  }

  /** One round of `Send`: the chunks still to write start with the one written now. */
  lemma ChunksStep(writes: seq<nat>, remaining: nat, space: seq<nat>, k: nat)
    requires remaining > 0 && k < |space|
    ensures var w := Min(space[k], remaining);
      writes + Chunks(remaining, space[k..]) == (writes + [w]) + Chunks(remaining - w, space[k + 1..])
      && writes + [w] <= writes + Chunks(remaining, space[k..])
  {
    assert space[k..][1..] == space[k + 1..];
  }
}
