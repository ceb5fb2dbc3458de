/**
 * Tokens of the port queues (runtime/north/cc_token.c). A token holds a
 * pointer to a MessagePack-encoded value and the size of that encoding. The
 * encoding itself belongs to the MessagePack library, so values are abstract.
 */
module CcToken {
  import opened Wrappers
  import opened Machine

  /** An abstract MessagePack value; `Other` stands for every type the model does not inspect. */
  datatype Value = UInt(n: u32) | Str(s: string) | Bool(b: bool) | Nil | Other(tag: nat)

  /** `cc_token_t`: `value` is None where the C pointer is NULL. */
  datatype Token = Token(value: Option<Value>, size: nat)

  /** The empty slot: NULL value, size 0. */
  const Empty := Token(None, 0)

  /** The token owns a buffer that `token_free` would hand back to the allocator. */
  predicate Owns(t: Token)
  {
    t.value.Some? && t.size != 0
  }

  /** `token_set_data` on slot `i` of a token array: the slot holds exactly the given pointer and size. */
  method SetData(tokens: array<Token>, i: nat, value: Option<Value>, size: nat)
    requires i < tokens.Length
    modifies tokens
    ensures tokens[..] == old(tokens[..])[i := Token(value, size)]
    ensures tokens[i].value == value && tokens[i].size == size
  {
    tokens[i] := Token(value, size);
  }

  /**
   * `token_free` on slot `i`: a token that owns a buffer releases it and
   * becomes empty; any other token is left as it is. `released` is the
   * buffer handed back to the allocator, if any.
   */
  method Free(tokens: array<Token>, i: nat) returns (released: Option<Value>)
    requires i < tokens.Length
    modifies tokens
    ensures Owns(old(tokens[i])) ==> tokens[..] == old(tokens[..])[i := Empty] && released == old(tokens[i]).value
    ensures !Owns(old(tokens[i])) ==> tokens[..] == old(tokens[..]) && released == None
  {
    released := None;
    if tokens[i].value.Some? && tokens[i].size != 0 {
      released := tokens[i].value;
      tokens[i] := Empty;
    }
  }

  /** `token_decode_uint`: succeeds only when the value is tagged as an unsigned integer. */
  function DecodeUint(t: Token): (r: Option<u32>)
    ensures r.Some? <==> t.value.Some? && t.value.value.UInt?
    ensures r.Some? ==> t.value == Some(UInt(r.value))
  {
    match t.value
    case Some(UInt(n)) => Some(n)
    case _ => None
  }

  /**
   * Bytes of the MessagePack encoding of `v`, as the coder's `sizeof`
   * helpers report them: one byte for a bool or nil, the smallest unsigned
   * integer format that holds `n`, and a string header followed by its
   * characters. `Other` values are not sized by the model.
   */
  function EncodedSize(v: Value): nat
  {
    match v
    case Bool(_) => 1
    case Nil => 1
    case UInt(n) => if n < 128 then 1 else if n < 0x100 then 2 else if n < 0x1_0000 then 3 else 5
    case Str(s) => (if |s| < 32 then 1 else if |s| < 0x100 then 2 else if |s| < 0x1_0000 then 3 else 5) + |s|
    case Other(_) => 1
  }

  /** One entry of an encoded map: the key and either raw data or nil. */
  datatype Field = Field(key: string, data: Option<Value>)

  /**
   * `token_encode` without the outer key: a map of two entries, "type" set
   * to "Token" and "data" set to the token's value, or nil when its size is 0.
   */
  function Encode(t: Token): (m: seq<Field>)
  {
    [Field("type", Some(Str("Token"))), Field("data", if t.size != 0 then t.value else None)]
  }

  /** Reading the "data" entry back out of an encoded token map, as a peer runtime does. */
  function DecodeData(m: seq<Field>): (r: Option<Value>)
  {
    if |m| == 2 && m[0] == Field("type", Some(Str("Token"))) && m[1].key == "data" then m[1].data else None
  }

  /** The encoding is always a two-entry map typed "Token"; its data round-trips for a token with a non-zero size, and is nil otherwise. */
  lemma EncodeRoundTrip(t: Token)
    ensures |Encode(t)| == 2 && Encode(t)[0].key == "type" && Encode(t)[1].key == "data"
    ensures t.size != 0 ==> DecodeData(Encode(t)) == t.value
    ensures t.size == 0 ==> DecodeData(Encode(t)) == None
  {
  }
}
