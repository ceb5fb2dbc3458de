/**
 * Reading and writing single entries of an actor's managed attributes:
 * the string-keyed list of MessagePack values that `init` and `set_state`
 * read and `get_attributes` appends to. A value is read back by
 * `cc_list_get` and one of the coder's typed decoders, and written by
 * `cc_list_add_n` with an encoded buffer.
 */
module ManagedAttributes {
  import opened Wrappers
  import opened Machine
  import opened Text
  import opened CcToken
  import opened CcCommon

  /** The entry `cc_list_add_n(list, key, |key|, encode(v), sizeof(v))` appends. */
  function Entry(key: string, v: Value): Item<Value>
  {
    Item(key, v, EncodedSize(v), true)
  }

  /** The value under `key` decoded as a string, None when missing or of another type. */
  function StrEntry(attrs: seq<Item<Value>>, key: string): Option<string>
  {
    var v := Lookup(attrs, key);
    if v.Some? && v.value.Str? then Some(v.value.s) else None
  }

  /** `cc_list_get(key)` followed by `cc_coder_decode_str`. */
  method GetStr(managed: CcList<Value>, key: string) returns (r: Option<string>)
    ensures r == StrEntry(managed.items, key)
  {
    var v := managed.Get(key);
    if v.None? || !v.value.Str? {
      return None;
    }
    r := Some(v.value.s);
  }

  /** The value under `key` decoded as a bool. */
  function BoolEntry(attrs: seq<Item<Value>>, key: string): Option<bool>
  {
    var v := Lookup(attrs, key);
    if v.Some? && v.value.Bool? then Some(v.value.b) else None
  }

  /** The value under `key` decoded as an unsigned integer. */
  function UIntEntry(attrs: seq<Item<Value>>, key: string): Option<u32>
  {
    var v := Lookup(attrs, key);
    if v.Some? && v.value.UInt? then Some(v.value.n) else None
  }

  /** An entry appended where no earlier key is a prefix of its own is the one found under that key. */
  lemma EntryFound(earlier: seq<Item<Value>>, key: string, v: Value)
    requires FirstPrefixOf(earlier, key).None?
    ensures Lookup(earlier + [Entry(key, v)], key) == Some(v)
    ensures v.Str? ==> StrEntry(earlier + [Entry(key, v)], key) == Some(v.s)
    ensures v.Bool? ==> BoolEntry(earlier + [Entry(key, v)], key) == Some(v.b)
    ensures v.UInt? ==> UIntEntry(earlier + [Entry(key, v)], key) == Some(v.n)
  {
    LookupAppended(earlier, Entry(key, v));
  }

  /** An entry appended under a key that is not a prefix of `other` does not change what `other` finds. */
  lemma EntryFoundOther(earlier: seq<Item<Value>>, key: string, v: Value, other: string)
    requires !(key <= other)
    ensures Lookup(earlier + [Entry(key, v)], other) == Lookup(earlier, other)
    ensures FirstPrefixOf(earlier + [Entry(key, v)], other) == FirstPrefixOf(earlier, other)
  {
    LookupAppendedOther(earlier, Entry(key, v), other);
  }

  /** When no earlier entry matches `key`, the first later entry whose id is a prefix of it is the one found. */
  lemma FoundAfter<T>(earlier: seq<Item<T>>, later: seq<Item<T>>, i: nat, key: string)
    requires i < |later| && later[i].id <= key
    requires FirstPrefixOf(earlier, key).None?
    requires forall j | 0 <= j < i :: !(later[j].id <= key)
    ensures FirstPrefixOf(earlier + later, key) == Some(|earlier| + i)
    ensures (earlier + later)[|earlier| + i] == later[i]
    ensures Lookup(earlier + later, key) == Some(later[i].data)
  {
    var all := earlier + later;
    assert all[|earlier| + i] == later[i];
    forall j | 0 <= j < |earlier| + i
      ensures !(all[j].id <= key)
    {
      if j < |earlier| {
        assert all[j] == earlier[j];
      } else {
        assert all[j] == later[j - |earlier|];
      }
    }
  }

  /**
   * An entry whose id has the length of `key` but differs from it does not
   * shadow `key`: an entry appended under `key` after it is still the one found.
   */
  lemma SameLengthNotShadowed(earlier: seq<Item<Value>>, other: string, w: Value, key: string, v: Value)
    requires |other| == |key| && other != key
    requires FirstPrefixOf(earlier, key).None?
    ensures Lookup(earlier + [Entry(other, w), Entry(key, v)], key) == Some(v)
  {
    assert !(other <= key) by {
      assert key[..|key|] == key;
    }
    EntryFoundOther(earlier, other, w, key);
    EntryFound(earlier + [Entry(other, w)], key, v);
    assert earlier + [Entry(other, w), Entry(key, v)] == earlier + [Entry(other, w)] + [Entry(key, v)];
  }
}
