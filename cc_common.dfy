/**
 * Shared helpers of the runtime (runtime/north/cc_common.c): the uuid
 * generator and comparison, the string-keyed list every table of the
 * runtime is built from, and two scanners that pull a value out of a JSON
 * text.
 *
 * The list is a singly linked chain of nodes in the source; here it is the
 * sequence of its nodes, oldest first, held by an object whose methods
 * reassign it.
 */
module CcCommon {
  import opened Wrappers
  import opened Text

  /** `cc_result_t`, whose values are 0, 1 and 2 in declaration order. */
  datatype CcResult = Success | Fail | PendingResult

  /** What a `bool` function returns for `return <result>`: C converts the enum's number, so anything but success is true. */
  function ResultAsBool(r: CcResult): bool
  {
    r != Success
  }

  /** What a `cc_result_t` function returns for `return <bool>`: false is 0, that is success, and true is 1, failure. */
  function BoolAsResult(b: bool): CcResult
  {
    if b then Fail else Success
  }

  // ---------------------------------------------------------------------
  // Uuids

  const HexDigits: string := "0123456789abcdef"

  /** Offsets, after the prefix, of the four dashes of a uuid. */
  predicate DashAt(k: nat)
  {
    k == 8 || k == 13 || k == 18 || k == 23
  }

  /**
   * The text `cc_gen_uuid` leaves in its buffer: the prefix, 36 characters
   * made from the 36 values of `rand()` it draws (a hex digit, or a dash at
   * the dash offsets), and the terminating NUL.
   */
  function UuidText(prefix: string, rand: seq<nat>): (s: string)
    requires |rand| == 36
  {
    prefix + seq(36, k requires 0 <= k < 36 => if DashAt(k) then '-' else HexDigits[rand[k] % 16]) + ['\0']
  }

  /** The format of a generated uuid: prefix, 8-4-4-4-12 groups of lower-case hex digits, NUL. */
  lemma UuidFormat(prefix: string, rand: seq<nat>)
    requires |rand| == 36
    ensures var s := UuidText(prefix, rand);
      |s| == |prefix| + 37 && s[..|prefix|] == prefix && s[|prefix| + 36] == '\0'
      && (forall k | 0 <= k < 36 && DashAt(k) :: s[|prefix| + k] == '-')
      && (forall k | 0 <= k < 36 && !DashAt(k) :: s[|prefix| + k] in HexDigits)
  {
    var s := UuidText(prefix, rand);
    forall k | 0 <= k < 36 && !DashAt(k)
      ensures s[|prefix| + k] in HexDigits
    {
      assert s[|prefix| + k] == HexDigits[rand[k] % 16];
    }
  }

  /**
   * `cc_gen_uuid(buffer, prefix)`, with the values `rand()` returns given as
   * `rand`: the buffer's first `|prefix| + 37` characters become `UuidText`,
   * the rest is left alone.
   */
  method GenUuid(buffer: array<char>, prefix: string, rand: seq<nat>)
    requires |rand| == 36 && |prefix| + 37 <= buffer.Length
    modifies buffer
    ensures buffer[..|prefix| + 37] == UuidText(prefix, rand)
    ensures buffer[|prefix| + 37..] == old(buffer[|prefix| + 37..])
  {
    var n := |prefix|;
    for i := 0 to n
      invariant buffer[..i] == prefix[..i]
      invariant buffer[n + 37..] == old(buffer[n + 37..])
    {
      buffer[i] := prefix[i];
    }
    for i := 0 to 36
      invariant buffer[..n] == prefix
      invariant forall k | 0 <= k < i :: buffer[n + k] == HexDigits[rand[k] % 16]
      invariant buffer[n + 37..] == old(buffer[n + 37..])
    {
      buffer[i + n] := HexDigits[rand[i] % 16];
    }
    buffer[8 + n], buffer[13 + n], buffer[18 + n], buffer[23 + n] := '-', '-', '-', '-';
    buffer[36 + n] := '\0';
    assert buffer[..n + 37] == UuidText(prefix, rand) by {
      var s := UuidText(prefix, rand);
      forall k | 0 <= k < n + 37
        ensures buffer[k] == s[k]
      {
        if k < n {
          assert buffer[..n][k] == prefix[k];
        }
      }
    }
  }

  /**
   * `cc_uuid_is_higher` as written: a longer id is higher, a shorter one
   * lower; for equal lengths the loop runs from index `len1` down to 0 and
   * answers true at the first index where `id1` has the greater character.
   */
  predicate HigherAsWritten(id1: string, len1: nat, id2: string, len2: nat)
    requires len1 < |id1| && len2 < |id2|
  {
    len1 > len2 || (len1 == len2 && exists i | 0 <= i <= len1 :: id1[i] > id2[i])
  }

  /** The loop of `cc_uuid_is_higher`, index by index from the end. */
  method UuidIsHigherAsWritten(id1: string, len1: nat, id2: string, len2: nat) returns (r: bool)
    requires len1 < |id1| && len2 < |id2|
    ensures r == HigherAsWritten(id1, len1, id2, len2)
  {
    if len1 > len2 {
      return true;
    }
    if len2 > len1 {
      return false;
    }
    var i: int := len1;
    while i >= 0
      invariant -1 <= i <= len1
      invariant forall j | i < j <= len1 :: !(id1[j] > id2[j])
    {
      if id1[i] > id2[i] {
        return true;
      }
      i := i - 1;
    }
    return false;
  }

  /** Two different ids of the same length can each be higher than the other. */
  lemma HigherAsWrittenNotAntisymmetric()
    ensures HigherAsWritten("ab\0", 2, "ba\0", 2) && HigherAsWritten("ba\0", 2, "ab\0", 2)
  {
    assert "ab\0"[1] > "ba\0"[1];
    assert "ba\0"[0] > "ab\0"[0];
  }

  /** `id1[..len]` is above `id2[..len]` in dictionary order: at the first index where they differ, `id1` has the greater character. */
  predicate LexGreater(id1: string, id2: string, len: nat)
    requires len <= |id1| && len <= |id2|
  {
    exists i | 0 <= i < len :: id1[..i] == id2[..i] && id1[i] > id2[i]
  }

  /** The order the comparison evidently intends: longer ids higher, ids of equal length in dictionary order. */
  predicate Higher(id1: string, len1: nat, id2: string, len2: nat)
    requires len1 <= |id1| && len2 <= |id2|
  {
    len1 > len2 || (len1 == len2 && LexGreater(id1, id2, len1))
  }

  /** Of two ids, at most one is higher than the other. */
  lemma HigherAsymmetric(id1: string, len1: nat, id2: string, len2: nat)
    requires len1 <= |id1| && len2 <= |id2|
    ensures !(Higher(id1, len1, id2, len2) && Higher(id2, len2, id1, len1))
  {
    forall i, j | 0 <= i < len1 && 0 <= j < len1 && len1 <= len2 && id1[..i] == id2[..i] && id2[..j] == id1[..j]
      ensures !(id1[i] > id2[i] && id2[j] > id1[j])
    {
      if i < j {
        assert id1[..j][i] == id1[i] && id2[..j][i] == id2[i];
      } else if j < i {
        assert id1[..i][j] == id1[j] && id2[..i][j] == id2[j];
      }
    }
  }

  /** Of two different ids, one is higher than the other. */
  lemma HigherTotal(id1: string, len1: nat, id2: string, len2: nat)
    requires len1 <= |id1| && len2 <= |id2| && id1[..len1] != id2[..len2]
    ensures Higher(id1, len1, id2, len2) || Higher(id2, len2, id1, len1)
  {
    if len1 == len2 {
      var i := 0;
      while i < len1 && id1[i] == id2[i]
        invariant 0 <= i <= len1 && id1[..i] == id2[..i]
        decreases len1 - i
      {
        assert id1[..i + 1] == id1[..i] + [id1[i]];
        assert id2[..i + 1] == id2[..i] + [id2[i]];
        i := i + 1;
      }
      if id1[i] > id2[i] {
        assert LexGreater(id1, id2, len1);
      } else {
        assert LexGreater(id2, id1, len1);
      }
    }
  }

  /** `cc_uuid_is_higher` with the intended comparison: the first differing index from the start decides. */
  method UuidIsHigher(id1: string, len1: nat, id2: string, len2: nat) returns (r: bool)
    requires len1 <= |id1| && len2 <= |id2|
    ensures r == Higher(id1, len1, id2, len2)
  {
    if len1 > len2 {
      return true;
    }
    if len2 > len1 {
      return false;
    }
    var i := 0;
    while i < len1
      invariant 0 <= i <= len1 && id1[..i] == id2[..i]
    {
      if id1[i] != id2[i] {
        r := id1[i] > id2[i];
        if !r {
          assert !LexGreater(id1, id2, len1) by {
            forall j | 0 <= j < len1 && id1[..j] == id2[..j]
              ensures !(id1[j] > id2[j])
            {
              if j < i {
                assert id1[..i][j] == id1[j];
              }
            }
          }
        }
        return;
      }
      assert id1[..i + 1] == id1[..i] + [id1[i]];
      assert id2[..i + 1] == id2[..i] + [id2[i]];
      i := i + 1;
    }
    assert !LexGreater(id1, id2, len1) by {
      forall j | 0 <= j < len1
        ensures !(id1[j] > id2[j])
      {
        assert id1[..len1][j] == id2[..len1][j];
      }
    }
    return false;
  }

  // ---------------------------------------------------------------------
  // The string-keyed list

  /** One node: its id, its data and the data's length, and whether the list owns (and frees) the id. */
  datatype Item<T> = Item(id: string, data: T, dataLen: nat, freeId: bool)

  /** The index of the first node whose id is a prefix of `key`: the node `cc_list_get` and `cc_list_remove` act on. */
  function FirstPrefixOf<T>(items: seq<Item<T>>, key: string): (r: Option<nat>)
    ensures r.Some? ==> r.value < |items| && items[r.value].id <= key
    ensures r.Some? ==> forall j | 0 <= j < r.value :: !(items[j].id <= key)
    ensures r.None? ==> forall j | 0 <= j < |items| :: !(items[j].id <= key)
  {
    if |items| == 0 then None
    else if items[0].id <= key then Some(0)
    else match FirstPrefixOf(items[1..], key)
      case None => None
      case Some(i) => Some(i + 1)
  }

  /** The index of the first node whose id agrees with `query` on its first `n` characters: the node `cc_list_get_n` returns. */
  function FirstStartingWith<T>(items: seq<Item<T>>, query: string, n: nat): (r: Option<nat>)
    ensures r.Some? ==> r.value < |items| && StrNEq(items[r.value].id, query, n)
    ensures r.Some? ==> forall j | 0 <= j < r.value :: !StrNEq(items[j].id, query, n)
    ensures r.None? ==> forall j | 0 <= j < |items| :: !StrNEq(items[j].id, query, n)
  {
    if |items| == 0 then None
    else if StrNEq(items[0].id, query, n) then Some(0)
    else match FirstStartingWith(items[1..], query, n)
      case None => None
      case Some(i) => Some(i + 1)
  }

  /** The data `cc_list_get` returns for `key`, or None for the NULL it returns when no node matches. */
  function Lookup<T>(items: seq<Item<T>>, key: string): Option<T>
  {
    match FirstPrefixOf(items, key)
    case None => None
    case Some(i) => Some(items[i].data)
  }

  /** The nodes left after `cc_list_remove(key)`: the first matching node is unlinked, the others keep their order. */
  function RemoveFirst<T>(items: seq<Item<T>>, key: string): seq<Item<T>>
  {
    match FirstPrefixOf(items, key)
    case None => items
    case Some(i) => items[..i] + items[i + 1..]
  }

  /** `strncmp(id, key, strlen(id)) == 0` says that the id is a prefix of the key. */
  lemma StrNEqIsPrefix(id: string, key: string)
    ensures StrNEq(id, key, |id|) <==> id <= key
  {
    if id <= key {
      assert Prefix(key, |id|) == key[..|id|];
    }
  }

  /** A node appended under a key no earlier node is a prefix of is what a lookup of that key finds. */
  lemma {:induction false} LookupAppended<T>(items: seq<Item<T>>, x: Item<T>)
    requires FirstPrefixOf(items, x.id).None?
    ensures Lookup(items + [x], x.id) == Some(x.data)
    ensures FirstPrefixOf(items + [x], x.id) == Some(|items|)
  {
    if |items| > 0 {
      assert (items + [x])[1..] == items[1..] + [x];
      LookupAppended(items[1..], x);
    }
  }

  /** Appending a node that does not match leaves every lookup as it was. */
  lemma {:induction false} LookupAppendedOther<T>(items: seq<Item<T>>, x: Item<T>, key: string)
    requires !(x.id <= key)
    ensures Lookup(items + [x], key) == Lookup(items, key)
    ensures FirstPrefixOf(items + [x], key) == FirstPrefixOf(items, key)
  {
    if |items| > 0 {
      assert (items + [x])[1..] == items[1..] + [x];
      LookupAppendedOther(items[1..], x, key);
    }
  }

  /** Removing the key of a node just appended, when no earlier node matches it, gives the list back. */
  lemma RemoveAppended<T>(items: seq<Item<T>>, x: Item<T>)
    requires FirstPrefixOf(items, x.id).None?
    ensures RemoveFirst(items + [x], x.id) == items
  {
    LookupAppended(items, x);
    assert (items + [x])[..|items|] == items;
  }

  class CcList<T> {
    /** The nodes from the head to the tail. */
    var items: seq<Item<T>>

    /** The empty list, a NULL head. */
    constructor ()
      ensures items == []
    {
      items := [];
    }

    /** `cc_list_add_n`: a copy of the first `len` characters of `id` becomes the id of a new tail node, which owns it. */
    method AddN(id: string, len: nat, data: T, dataLen: nat)
      modifies this
      ensures items == old(items) + [Item(Prefix(id, len), data, dataLen, true)]
    {
      items := items + [Item(Prefix(id, len), data, dataLen, true)];
    }

    /** `cc_list_add`: a new tail node with the caller's id, which the list does not own. */
    method Add(id: string, data: T, dataLen: nat)
      modifies this
      ensures items == old(items) + [Item(id, data, dataLen, false)]
    {
      items := items + [Item(id, data, dataLen, false)];
    }

    /** `cc_list_remove`: the first node whose id is a prefix of `key` is unlinked; without one nothing changes. */
    method Remove(key: string)
      modifies this
      ensures items == RemoveFirst(old(items), key)
    {
      var i := 0;
      while i < |items|
        invariant 0 <= i <= |items| && items == old(items)
        invariant forall j | 0 <= j < i :: !(items[j].id <= key)
      {
        StrNEqIsPrefix(items[i].id, key);
        if StrNEq(items[i].id, key, |items[i].id|) {
          assert FirstPrefixOf(items, key) == Some(i);
          items := items[..i] + items[i + 1..];
          return;
        }
        i := i + 1;
      }
    }

    /** `cc_list_count`: the number of nodes, counted by walking the chain. */
    method Count() returns (count: nat)
      ensures count == |items|
    {
      count := 0;
      var rest := items;
      while rest != []
        invariant count + |rest| == |items|
      {
        count := count + 1;
        rest := rest[1..];
      }
    }

    /** `cc_list_get_n`: the data of the first node whose id agrees with `query` on its first `n` characters. */
    method GetN(query: string, n: nat) returns (r: Option<T>)
      ensures r.Some? <==> exists j | 0 <= j < |items| :: StrNEq(items[j].id, query, n)
      ensures r.Some? ==> exists j | 0 <= j < |items| ::
        (StrNEq(items[j].id, query, n) && r.value == items[j].data && forall k | 0 <= k < j :: !StrNEq(items[k].id, query, n))
    {
      var i := 0;
      while i < |items|
        invariant 0 <= i <= |items|
        invariant forall k | 0 <= k < i :: !StrNEq(items[k].id, query, n)
      {
        if StrNEq(items[i].id, query, n) {
          return Some(items[i].data);
        }
        i := i + 1;
      }
      return None;
    }

    /** `cc_list_get`: the data of the first node whose id is a prefix of `key`, or None. */
    method Get(key: string) returns (r: Option<T>)
      ensures r == Lookup(items, key)
    {
      var i := 0;
      while i < |items|
        invariant 0 <= i <= |items|
        invariant forall k | 0 <= k < i :: !(items[k].id <= key)
      {
        StrNEqIsPrefix(items[i].id, key);
        if StrNEq(items[i].id, key, |items[i].id|) {
          assert FirstPrefixOf(items, key) == Some(i);
          return Some(items[i].data);
        }
        i := i + 1;
      }
      return None;
    }

    /**
     * `cc_list_get` as its header declares it and as the actors use it: the
     * first node whose id is a prefix of `key` itself, so that its data
     * length can be read too.
     */
    method GetNode(key: string) returns (r: Option<Item<T>>)
      ensures r.Some? <==> FirstPrefixOf(items, key).Some?
      ensures r.Some? ==> r.value == items[FirstPrefixOf(items, key).value]
      ensures r.Some? ==> Lookup(items, key) == Some(r.value.data)
    {
      var i := 0;
      while i < |items|
        invariant 0 <= i <= |items|
        invariant forall k | 0 <= k < i :: !(items[k].id <= key)
      {
        StrNEqIsPrefix(items[i].id, key);
        if StrNEq(items[i].id, key, |items[i].id|) {
          assert FirstPrefixOf(items, key) == Some(i);
          return Some(items[i]);
        }
        i := i + 1;
      }
      return None;
    }
  }

  // ---------------------------------------------------------------------
  // JSON scanners

  /** The key occurs at `pos` (compared as `strncmp` over `keyLen` characters) with at least one character after it. */
  predicate KeyAt(buffer: string, key: string, keyLen: nat, pos: nat)
  {
    pos + keyLen < |buffer| && StrNEq(buffer[pos..], key, keyLen)
  }

  /** The first position at or after `pos` where the key occurs. */
  function FirstKeyFrom(buffer: string, key: string, keyLen: nat, pos: nat): (r: Option<nat>)
    decreases |buffer| - pos
    ensures r.Some? ==> pos <= r.value && KeyAt(buffer, key, keyLen, r.value)
    ensures r.Some? ==> forall j | pos <= j < r.value :: !KeyAt(buffer, key, keyLen, j)
    ensures r.None? ==> forall j | pos <= j :: !KeyAt(buffer, key, keyLen, j)
  {
    if pos + keyLen >= |buffer| then None
    else if StrNEq(buffer[pos..], key, keyLen) then Some(pos)
    else FirstKeyFrom(buffer, key, keyLen, pos + 1)
  }

  /** The search loop both scanners start with: the first position where the key occurs. */
  method FindKey(buffer: string, key: string, keyLen: nat) returns (r: Option<nat>)
    ensures r == FirstKeyFrom(buffer, key, keyLen, 0)
    ensures r.Some? ==> r.value + keyLen < |buffer|
  {
    var pos := 0;
    while pos + keyLen < |buffer|
      invariant FirstKeyFrom(buffer, key, keyLen, pos) == FirstKeyFrom(buffer, key, keyLen, 0)
    {
      if StrNEq(buffer[pos..], key, keyLen) {
        return Some(pos);
      }
      pos := pos + 1;
    }
    return None;
  }

  /** No '"' in `buffer[from..to]`. */
  predicate NoQuote(buffer: string, from: nat, to: nat)
    requires from <= to <= |buffer|
  {
    forall k | from <= k < to :: buffer[k] != '"'
  }

  /** `buffer[start..start + len]` is the text between the first two '"' at or after `from`. */
  predicate QuotedAt(buffer: string, from: nat, start: nat, len: nat)
  {
    from < start && start + len < |buffer| && buffer[start - 1] == '"' && buffer[start + len] == '"'
    && NoQuote(buffer, from, start - 1) && NoQuote(buffer, start, start + len)
  }

  /** At most one '"' lies at or after `from`. */
  predicate AtMostOneQuote(buffer: string, from: nat)
    requires from <= |buffer|
  {
    forall a | from <= a < |buffer| && buffer[a] == '"' :: NoQuote(buffer, a + 1, |buffer|)
  }

  /**
   * `cc_get_json_string_value`: after the first occurrence of the key and
   * the one character that follows it, the text between the next two '"'.
   * The result is the value's start and length; None when the key is
   * missing or fewer than two '"' follow it.
   */
  method JsonStringValue(buffer: string, key: string, keyLen: nat) returns (r: Option<(nat, nat)>)
    ensures FirstKeyFrom(buffer, key, keyLen, 0).None? ==> r.None?
    ensures FirstKeyFrom(buffer, key, keyLen, 0).Some? ==>
      var from := FirstKeyFrom(buffer, key, keyLen, 0).value + keyLen + 1;
      from <= |buffer|
      && (r.Some? ==> QuotedAt(buffer, from, r.value.0, r.value.1))
      && (r.None? ==> AtMostOneQuote(buffer, from))
    ensures r == JsonString(buffer, key, keyLen)
  {
    var found := FindKey(buffer, key, keyLen);
    if found.None? {
      return None;
    }
    var from := found.value + keyLen + 1;
    r := ScanQuoted(buffer, from);
    if r.Some? {
      QuotedValueAt(buffer, from, r.value.0, r.value.1);
    } else {
      NoQuotedValue(buffer, from);
    }
  }

  /** The quote-finding loop of `cc_get_json_string_value`, from just past the key. */
  method ScanQuoted(buffer: string, from: nat) returns (r: Option<(nat, nat)>)
    requires from <= |buffer|
    ensures r.Some? ==> QuotedAt(buffer, from, r.value.0, r.value.1)
    ensures r.None? ==> AtMostOneQuote(buffer, from)
  {
    var pos := from;
    var start: Option<nat> := None;
    while pos < |buffer|
      invariant from <= pos <= |buffer|
      invariant start.None? ==> NoQuote(buffer, from, pos)
      invariant start.Some? ==>
        (from < start.value <= pos && buffer[start.value - 1] == '"'
         && NoQuote(buffer, from, start.value - 1) && NoQuote(buffer, start.value, pos))
    {
      if buffer[pos] == '"' {
        if start.None? {
          start := Some(pos + 1);
        } else {
          return Some((start.value, pos - start.value));
        }
      }
      pos := pos + 1;
    }
    return None;
  }

  /** Opening minus closing braces in `s`. */
  function Depth(s: string): int
  {
    if |s| == 0 then 0
    else Depth(s[..|s| - 1]) + (if s[|s| - 1] == '{' then 1 else if s[|s| - 1] == '}' then -1 else 0)
  }

  /** Opening minus closing braces in `buffer[from..to]`. */
  function DepthOf(buffer: string, from: nat, to: nat): int
    requires from <= to <= |buffer|
  {
    Depth(buffer[from..to])
  }

  lemma DepthStep(buffer: string, from: nat, to: nat)
    requires from <= to < |buffer|
    ensures DepthOf(buffer, from, to + 1) == DepthOf(buffer, from, to)
      + (if buffer[to] == '{' then 1 else if buffer[to] == '}' then -1 else 0)
  {
    assert buffer[from..to + 1][..to - from] == buffer[from..to];
  }

  /** No '{' in `buffer[from..to]`. */
  predicate NoOpen(buffer: string, from: nat, to: nat)
    requires from <= to <= |buffer|
  {
    forall k | from <= k < to :: buffer[k] != '{'
  }

  /** `buffer[start..start + len]` is one balanced brace group, opened by the first '{' at or after `from` and closed only at its last character. */
  predicate DictAt(buffer: string, from: nat, start: nat, len: nat)
  {
    from <= start && start + len <= |buffer| && NoOpen(buffer, from, start)
    && len > 0 && buffer[start] == '{' && DepthOf(buffer, start, start + len) == 0
    && forall k | start < k < start + len :: DepthOf(buffer, start, k) > 0
  }

  /** No '{' lies at or after `from`, or the group the first one opens never closes. */
  predicate NoDict(buffer: string, from: nat)
    requires from <= |buffer|
  {
    forall s | from <= s < |buffer| && NoOpen(buffer, from, s) && buffer[s] == '{' ::
      forall k | s < k <= |buffer| :: DepthOf(buffer, s, k) > 0
  }

  /** The state of the scan at `pos`: no '{' yet, or the group opened at `start` is still open with `braces` unclosed. */
  predicate DictScanning(buffer: string, from: nat, pos: nat, start: Option<nat>, braces: nat)
    requires from <= pos <= |buffer|
  {
    match start
    case None => NoOpen(buffer, from, pos)
    case Some(s) =>
      from <= s < pos && buffer[s] == '{' && NoOpen(buffer, from, s)
      && braces == DepthOf(buffer, s, pos) > 0
      && forall k | s < k <= pos :: DepthOf(buffer, s, k) > 0
  }

  /**
   * `cc_get_json_dict_value` with the brace counter started at the first
   * '{' after the key: the balanced group that this brace opens. None when
   * the key is missing, no '{' follows it, or the group never closes.
   */
  method JsonDictValue(buffer: string, key: string, keyLen: nat) returns (r: Option<(nat, nat)>)
    ensures FirstKeyFrom(buffer, key, keyLen, 0).None? ==> r.None?
    ensures FirstKeyFrom(buffer, key, keyLen, 0).Some? ==>
      var from := FirstKeyFrom(buffer, key, keyLen, 0).value + keyLen + 1;
      from <= |buffer|
      && (r.Some? ==> DictAt(buffer, from, r.value.0, r.value.1))
      && (r.None? ==> NoDict(buffer, from))
    ensures r == JsonDict(buffer, key, keyLen)
  {
    var found := FindKey(buffer, key, keyLen);
    if found.None? {
      return None;
    }
    var from := found.value + keyLen + 1;
    r := ScanDict(buffer, from);
    if r.Some? {
      DictValueAt(buffer, from, r.value.0, r.value.1);
    } else {
      NoDictValue(buffer, from);
    }
  }

  /** The brace-counting loop of `cc_get_json_dict_value`, from just past the key. */
  method ScanDict(buffer: string, from: nat) returns (r: Option<(nat, nat)>)
    requires from <= |buffer|
    ensures r.Some? ==> DictAt(buffer, from, r.value.0, r.value.1)
    ensures r.None? ==> NoDict(buffer, from)
  {
    var pos := from;
    var start: Option<nat> := None;
    var braces: nat := 0;
    while pos < |buffer|
      invariant from <= pos <= |buffer| && DictScanning(buffer, from, pos, start, braces)
    {
      if start.None? {
        DictScanOutside(buffer, from, pos);
        if buffer[pos] == '{' {
          start, braces := Some(pos), 1;
        }
      } else {
        var b := braces + (if buffer[pos] == '{' then 1 else if buffer[pos] == '}' then -1 else 0);
        if b == 0 {
          DictScanCloses(buffer, from, pos, start.value, braces);
          return Some((start.value, pos + 1 - start.value));
        }
        DictScanInside(buffer, from, pos, start.value, braces);
        braces := b;
      }
      pos := pos + 1;
    }
    DictScanExhausted(buffer, from, start, braces);
    return None;
  }

  lemma DictScanOutside(buffer: string, from: nat, pos: nat)
    requires from <= pos < |buffer| && NoOpen(buffer, from, pos)
    ensures buffer[pos] == '{' ==> DictScanning(buffer, from, pos + 1, Some(pos), 1)
    ensures buffer[pos] != '{' ==> NoOpen(buffer, from, pos + 1)
  {
    assert buffer[pos..pos] == [];
    DepthStep(buffer, pos, pos);
  }

  lemma DictScanInside(buffer: string, from: nat, pos: nat, s: nat, braces: nat)
    requires from <= pos < |buffer| && DictScanning(buffer, from, pos, Some(s), braces)
    requires braces + (if buffer[pos] == '{' then 1 else if buffer[pos] == '}' then -1 else 0) != 0
    ensures DictScanning(buffer, from, pos + 1, Some(s),
      braces + (if buffer[pos] == '{' then 1 else if buffer[pos] == '}' then -1 else 0))
  {
    DepthStep(buffer, s, pos);
  }

  lemma DictScanCloses(buffer: string, from: nat, pos: nat, s: nat, braces: nat)
    requires from <= pos < |buffer| && DictScanning(buffer, from, pos, Some(s), braces)
    requires braces + (if buffer[pos] == '{' then 1 else if buffer[pos] == '}' then -1 else 0) == 0
    ensures DictAt(buffer, from, s, pos + 1 - s)
  {
    DepthStep(buffer, s, pos);
  }

  lemma DictScanExhausted(buffer: string, from: nat, start: Option<nat>, braces: nat)
    requires from <= |buffer| && DictScanning(buffer, from, |buffer|, start, braces)
    ensures NoDict(buffer, from)
  {
    if start.Some? {
      forall t | from <= t < |buffer| && NoOpen(buffer, from, t) && buffer[t] == '{'
        ensures t == start.value
      {
      }
    }
  }

  /** The first '"' at or after `from`. */
  function FirstQuote(buffer: string, from: nat): (r: Option<nat>)
    requires from <= |buffer|
    decreases |buffer| - from
    ensures r.Some? ==> from <= r.value < |buffer| && buffer[r.value] == '"' && NoQuote(buffer, from, r.value)
    ensures r.None? ==> NoQuote(buffer, from, |buffer|)
  {
    if from == |buffer| then None
    else if buffer[from] == '"' then Some(from)
    else FirstQuote(buffer, from + 1)
  }

  /** The text between the first two '"' at or after `from`, as its start and length. */
  function QuotedValue(buffer: string, from: nat): (r: Option<(nat, nat)>)
    requires from <= |buffer|
    ensures r.Some? ==> QuotedAt(buffer, from, r.value.0, r.value.1)
  {
    match FirstQuote(buffer, from)
    case None => None
    case Some(q) =>
      match FirstQuote(buffer, q + 1) {
        case None => None
        case Some(e) => Some((q + 1, e - q - 1))
      }
  }

  /** What `cc_get_json_string_value` finds: the quoted text after the key's first occurrence and the character after it. */
  function JsonString(buffer: string, key: string, keyLen: nat): (r: Option<(nat, nat)>)
    ensures r.Some? ==> r.value.0 > 0 && QuotedAt(buffer, r.value.0 - 1, r.value.0, r.value.1)
  {
    match FirstKeyFrom(buffer, key, keyLen, 0)
    case None => None
    case Some(p) => QuotedValue(buffer, p + keyLen + 1)
  }

  lemma {:induction false} FirstQuoteAt(buffer: string, from: nat, q: nat)
    requires from <= q < |buffer| && buffer[q] == '"' && NoQuote(buffer, from, q)
    ensures FirstQuote(buffer, from) == Some(q)
    decreases q - from
  {
    if from < q {
      FirstQuoteAt(buffer, from + 1, q);
    }
  }

  /** The quoted text the scan of `cc_get_json_string_value` stops at is the one `QuotedValue` names. */
  lemma QuotedValueAt(buffer: string, from: nat, start: nat, len: nat)
    requires from <= |buffer| && QuotedAt(buffer, from, start, len)
    ensures QuotedValue(buffer, from) == Some((start, len))
  {
    FirstQuoteAt(buffer, from, start - 1);
    FirstQuoteAt(buffer, start, start + len);
  }

  /** With at most one '"' left there is no quoted text. */
  lemma NoQuotedValue(buffer: string, from: nat)
    requires from <= |buffer| && AtMostOneQuote(buffer, from)
    ensures QuotedValue(buffer, from).None?
  {
  }

  /** The first '{' at or after `from`. */
  function FirstOpen(buffer: string, from: nat): (r: Option<nat>)
    requires from <= |buffer|
    decreases |buffer| - from
    ensures r.Some? ==> from <= r.value < |buffer| && buffer[r.value] == '{' && NoOpen(buffer, from, r.value)
    ensures r.None? ==> NoOpen(buffer, from, |buffer|)
  {
    if from == |buffer| then None
    else if buffer[from] == '{' then Some(from)
    else FirstOpen(buffer, from + 1)
  }

  /** The first end `e` at or after `k` where the braces opened at `s` are all closed again. */
  function CloseFrom(buffer: string, s: nat, k: nat): (r: Option<nat>)
    requires s < k <= |buffer|
    decreases |buffer| - k
    ensures r.Some? ==> k <= r.value <= |buffer| && DepthOf(buffer, s, r.value) == 0
    ensures r.Some? ==> forall j | k <= j < r.value :: DepthOf(buffer, s, j) != 0
    ensures r.None? ==> forall j | k <= j <= |buffer| :: DepthOf(buffer, s, j) != 0
  {
    if DepthOf(buffer, s, k) == 0 then Some(k)
    else if k == |buffer| then None
    else CloseFrom(buffer, s, k + 1)
  }

  /** The balanced brace group the first '{' at or after `from` opens, as its start and length. */
  function DictValue(buffer: string, from: nat): (r: Option<(nat, nat)>)
    requires from <= |buffer|
    ensures r.Some? ==> r.value.0 + r.value.1 <= |buffer|
  {
    match FirstOpen(buffer, from)
    case None => None
    case Some(s) =>
      match CloseFrom(buffer, s, s + 1) {
        case None => None
        case Some(e) => Some((s, e - s))
      }
  }

  /** What `cc_get_json_dict_value`, with its counter corrected, finds: the brace group after the key's first occurrence. */
  function JsonDict(buffer: string, key: string, keyLen: nat): (r: Option<(nat, nat)>)
    ensures r.Some? ==> r.value.0 + r.value.1 <= |buffer|
  {
    match FirstKeyFrom(buffer, key, keyLen, 0)
    case None => None
    case Some(p) => DictValue(buffer, p + keyLen + 1)
  }

  lemma {:induction false} FirstOpenAt(buffer: string, from: nat, q: nat)
    requires from <= q < |buffer| && buffer[q] == '{' && NoOpen(buffer, from, q)
    ensures FirstOpen(buffer, from) == Some(q)
    decreases q - from
  {
    if from < q {
      FirstOpenAt(buffer, from + 1, q);
    }
  }

  lemma {:induction false} CloseFromAt(buffer: string, s: nat, k: nat, e: nat)
    requires s < k <= e <= |buffer| && DepthOf(buffer, s, e) == 0
    requires forall j | k <= j < e :: DepthOf(buffer, s, j) != 0
    ensures CloseFrom(buffer, s, k) == Some(e)
    decreases e - k
  {
    if k < e {
      CloseFromAt(buffer, s, k + 1, e);
    }
  }

  /** The group the brace-counting scan returns is the one `DictValue` names. */
  lemma DictValueAt(buffer: string, from: nat, start: nat, len: nat)
    requires from <= |buffer| && DictAt(buffer, from, start, len)
    ensures DictValue(buffer, from) == Some((start, len))
  {
    FirstOpenAt(buffer, from, start);
    assert buffer[start..start + 1] == [buffer[start]];
    DepthStep(buffer, start, start);
    assert buffer[start..start] == [];
    CloseFromAt(buffer, start, start + 1, start + len);
  }

  /** When the scan finds no group, `DictValue` names none. */
  lemma NoDictValue(buffer: string, from: nat)
    requires from <= |buffer| && NoDict(buffer, from)
    ensures DictValue(buffer, from).None?
  {
  }

  const SIZE_T: int := 0x1_0000_0000_0000_0000

  /**
   * The rest of the scan of `cc_get_json_dict_value` exactly as written,
   * from position `pos` with state `(start, braces, len)`: `braces` is a
   * `size_t` that every '}' decrements, even before the first '{' has been
   * seen. The result is the value found, if any.
   */
  function DictScanAsWritten(buffer: string, pos: nat, start: Option<nat>, braces: nat, len: nat): Option<(nat, nat)>
    requires pos <= |buffer| && braces < SIZE_T
    decreases |buffer| - pos
  {
    if pos == |buffer| then None
    else
      var start' := if buffer[pos] == '{' && start.None? then Some(pos) else start;
      var b1 := if buffer[pos] == '{' then (braces + 1) % SIZE_T else braces;
      var b2 := if buffer[pos] == '}' then (b1 - 1) % SIZE_T else b1;
      var len' := if start'.Some? then len + 1 else len;
      if start'.Some? && b2 == 0 then Some((start'.value, len'))
      else DictScanAsWritten(buffer, pos + 1, start', b2, len')
  }

  /** `cc_get_json_dict_value` as written. */
  method JsonDictValueAsWritten(buffer: string, key: string, keyLen: nat) returns (r: Option<(nat, nat)>)
    ensures FirstKeyFrom(buffer, key, keyLen, 0).None? ==> r.None?
    ensures FirstKeyFrom(buffer, key, keyLen, 0).Some? ==>
      var from := FirstKeyFrom(buffer, key, keyLen, 0).value + keyLen + 1;
      from <= |buffer| && r == DictScanAsWritten(buffer, from, None, 0, 0)
  {
    var found := FindKey(buffer, key, keyLen);
    if found.None? {
      return None;
    }
    var from := found.value + keyLen + 1;
    var pos := from;
    var start: Option<nat> := None;
    var braces: nat, len: nat := 0, 0;
    while pos < |buffer|
      invariant from <= pos <= |buffer| && braces < SIZE_T
      invariant DictScanAsWritten(buffer, pos, start, braces, len) == DictScanAsWritten(buffer, from, None, 0, 0)
    {
      if buffer[pos] == '{' {
        if start.None? {
          start := Some(pos);
        }
        braces := (braces + 1) % SIZE_T;
      }
      if buffer[pos] == '}' {
        braces := (braces - 1) % SIZE_T;
      }
      if start.Some? {
        len := len + 1;
        if braces == 0 {
          return Some((start.value, len));
        }
      }
      pos := pos + 1;
    }
    return None;
  }

  /**
   * A '}' between the key and the dict it looks for underflows the counter,
   * and the '{' that follows brings it back to 0: the scan stops after one
   * character. With the key `"k"` in `[{"k":1},{}]` the value found is "{"
   * alone, where the first brace group after the key is `{}`, the one the
   * corrected scan returns.
   */
  lemma DictUnderflowAsWritten()
    ensures FirstKeyFrom("[{\"k\":1},{}]", "\"k\"", 3, 0) == Some(2)
    ensures DictScanAsWritten("[{\"k\":1},{}]", 6, None, 0, 0) == Some((9, 1))
    ensures DictAt("[{\"k\":1},{}]", 6, 9, 2)
  {
    var buffer, key := "[{\"k\":1},{}]", "\"k\"";
    assert Prefix(buffer[0..], 3)[0] == '[' && Prefix(buffer[1..], 3)[0] == '{' && key[0] == '"';
    assert Prefix(buffer[2..], 3) == buffer[2..5] == key;
    var m := SIZE_T - 1;
    assert buffer[6] == '1' && buffer[7] == '}' && buffer[8] == ',' && buffer[9] == '{';
    assert DictScanAsWritten(buffer, 9, None, m, 0) == Some((9, 1));
    assert DictScanAsWritten(buffer, 8, None, m, 0) == Some((9, 1));
    assert DictScanAsWritten(buffer, 7, None, 0, 0) == Some((9, 1));
    assert buffer[9..9] == [];
    DepthStep(buffer, 9, 9);
    DepthStep(buffer, 9, 10);
  }
}
