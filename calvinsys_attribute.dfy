/**
 * The "sys.attribute.indexed" capability
 * (calvinsys/common/cc_calvinsys_attribute.c): writing a path
 * "category.item" looks the item up in the node's JSON attributes under
 * "indexed_public" and keeps the string found there; reading hands the kept
 * string back.
 *
 * The node's attribute text is a parameter of `Write`. The lookups use the
 * JSON scanners of the runtime's common code (`JsonDictValue`,
 * `JsonStringValue`).
 */
module CcCalvinsysAttribute {
  import opened Wrappers
  import opened Text
  import opened CcToken
  import opened CcCommon
  import opened CcCalvinsys

  const AttributeCapability := "sys.attribute.indexed"
  const IndexedPublic := "indexed_public"

  /** `MAX_ATTRIBUTES_LEN`: how much of the node's attribute text is searched. */
  const MaxAttributesLen: nat := 1024

  /** The first '.' at or after `pos`. */
  function FirstDot(path: string, pos: nat): (r: Option<nat>)
    requires pos <= |path|
    decreases |path| - pos
    ensures r.Some? ==> (pos <= r.value < |path| && path[r.value] == '.'
      && forall j | pos <= j < r.value :: path[j] != '.')
    ensures r.None? ==> forall j | pos <= j < |path| :: path[j] != '.'
  {
    if pos == |path| then None
    else if path[pos] == '.' then Some(pos)
    else FirstDot(path, pos + 1)
  }

  /** The path split at its first '.' into category and item; None without a '.'. */
  function SplitPath(path: string): (r: Option<(string, string)>)
    ensures r.None? <==> '.' !in path
    ensures r.Some? ==> path == r.value.0 + "." + r.value.1 && '.' !in r.value.0
  {
    match FirstDot(path, 0)
    case None => None
    case Some(d) =>
      assert path == path[..d] + "." + path[d + 1..];
      Some((path[..d], path[d + 1..]))
  }

  /** The text a scanner's (start, length) names. */
  function Slice(buffer: string, at: (nat, nat)): (r: string)
    requires at.0 + at.1 <= |buffer|
    ensures |r| == at.1
  {
    buffer[at.0..at.0 + at.1]
  }

  /**
   * The string `calvinsys_attribute_write` finds for `path`: the dict under
   * "indexed_public" in the first 1024 characters of the attributes, the
   * dict under the category in that, and the string under the item in that.
   */
  function IndexedValue(attributes: string, path: string): Option<string>
  {
    match SplitPath(path)
    case None => None
    case Some((category, item)) => IndexedIn(Prefix(attributes, MaxAttributesLen), category, item)
  }

  /** The three lookups of `IndexedValue` in the searched text. */
  function IndexedIn(text: string, category: string, item: string): Option<string>
  {
    match JsonDict(text, IndexedPublic, 14)
    case None => None
    case Some(ip) =>
      var public := Slice(text, ip);
      match JsonDict(public, category, |category|) {
        case None => None
        case Some(cd) =>
          var categoryData := Slice(public, cd);
          match JsonString(categoryData, item, |item|) {
            case None => None
            case Some(v) => Some(Slice(categoryData, v))
          }
      }
  }

  /** The value found is text between two '"' of the searched attribute text, at `at`, with no '"' inside. */
  lemma IndexedValueQuoted(attributes: string, path: string) returns (at: nat)
    requires IndexedValue(attributes, path).Some?
    ensures var v := IndexedValue(attributes, path).value;
      var text := Prefix(attributes, MaxAttributesLen);
      '"' !in v && at + |v| + 2 <= |text| && text[at..at + |v| + 2] == "\"" + v + "\""
  {
    var (category, item) := SplitPath(path).value;
    var text := Prefix(attributes, MaxAttributesLen);
    assert IndexedValue(attributes, path) == IndexedIn(text, category, item);
    var ip := JsonDict(text, IndexedPublic, 14).value;
    var public := Slice(text, ip);
    var cd := JsonDict(public, category, |category|).value;
    var categoryData := Slice(public, cd);
    var q := JsonString(categoryData, item, |item|).value;
    var v := Slice(categoryData, q);
    assert v == IndexedValue(attributes, path).value;
    at := NestedQuoted(text, ip, cd, q);
  }

  /** A quoted string inside a slice of a slice of `text` is a quoted string of `text`, at the returned position. */
  lemma NestedQuoted(text: string, ip: (nat, nat), cd: (nat, nat), q: (nat, nat)) returns (at: nat)
    requires ip.0 + ip.1 <= |text| && cd.0 + cd.1 <= ip.1
    requires q.0 > 0 && QuotedAt(Slice(Slice(text, ip), cd), q.0 - 1, q.0, q.1)
    ensures var v := Slice(Slice(Slice(text, ip), cd), q);
      '"' !in v && at + |v| + 2 <= |text| && text[at..at + |v| + 2] == "\"" + v + "\""
  {
    var public := Slice(text, ip);
    var categoryData := Slice(public, cd);
    QuotedSlice(categoryData, q.0, q.1);
    SliceOfSlice(public, cd, q.0 - 1, q.0 + q.1 + 1);
    SliceOfSlice(text, ip, cd.0 + q.0 - 1, cd.0 + q.0 + q.1 + 1);
    at := ip.0 + cd.0 + q.0 - 1;
  }

  /** Text between two '"' with none inside, taken with its quotes. */
  lemma QuotedSlice(buffer: string, start: nat, len: nat)
    requires start > 0 && QuotedAt(buffer, start - 1, start, len)
    ensures buffer[start - 1..start + len + 1] == "\"" + buffer[start..start + len] + "\""
    ensures '"' !in buffer[start..start + len]
  {
    assert NoQuote(buffer, start, start + len);
    var q := buffer[start - 1..start + len + 1];
    assert forall k | start <= k < start + len :: buffer[start..start + len][k - start] == buffer[k];
  }

  /** A piece of a slice is a piece of the whole. */
  lemma SliceOfSlice(buffer: string, at: (nat, nat), i: nat, j: nat)
    requires at.0 + at.1 <= |buffer| && i <= j <= at.1
    ensures Slice(buffer, at)[i..j] == buffer[at.0 + i..at.0 + j]
  {
    assert forall k | 0 <= k < j - i :: Slice(buffer, at)[i..j][k] == buffer[at.0 + i + k];
  }

  /** A path's category is what precedes its first '.', and the item is all that follows it, '.'s included. */
  lemma SplitPathParts(category: string, item: string)
    requires '.' !in category
    ensures SplitPath(category + "." + item) == Some((category, item))
  {
    var path := category + "." + item;
    FirstDotAt(path, 0, |category|);
    assert path[..|category|] == category;
    assert path[|category| + 1..] == item;
  }

  /** An attribute object: the string the last successful write found, None where the C pointer is NULL. */
  class AttributeObj {
    var attribute: Option<string>

    /** `calvinsys_attribute_open`: nothing is kept yet. */
    constructor Open()
      ensures attribute.None?
    {
      attribute := None;
    }

    /** `calvinsys_attribute_can_read`: a non-empty string is kept. */
    method CanRead() returns (r: bool)
      ensures r <==> attribute.Some? && |attribute.value| > 0
    {
      r := attribute.Some? && |attribute.value| > 0;
    }

    /** `calvinsys_attribute_read`: the kept string, encoded as a string value; `allocOk` is whether the output buffer could be allocated. */
    method Read(allocOk: bool) returns (r: CcResult, data: Option<Value>)
      ensures r == Success <==> attribute.Some? && |attribute.value| > 0 && allocOk
      ensures data == (if r == Success then Some(Str(attribute.value)) else None)
    {
      if attribute.Some? && |attribute.value| > 0 {
        if !allocOk {
          return Fail, None;
        }
        return Success, Some(Str(attribute.value));
      }
      return Fail, None;
    }

    /** `calvinsys_attribute_can_write`: always. */
    method CanWrite() returns (r: bool)
      ensures r
    {
      r := true;
    }

    /**
     * `calvinsys_attribute_write`: drops whatever was kept, then needs a
     * string value holding a path with a '.', and keeps the string the
     * lookup finds for it. Every missing step fails and leaves nothing
     * kept.
     */
    method Write(attributes: string, data: Value) returns (r: CcResult)
      modifies this`attribute
      ensures r == Success <==> data.Str? && IndexedValue(attributes, data.s).Some?
      ensures attribute == (if r == Success then IndexedValue(attributes, data.s) else None)
    {
      attribute := None;
      if !data.Str? {
        return Fail;
      }
      var split := Split(data.s);
      if split.None? {
        return Fail;
      }
      var (category, item) := split.value;
      var text := Prefix(attributes, MaxAttributesLen);
      var ip := JsonDictValue(text, IndexedPublic, 14);
      if ip.None? {
        return Fail;
      }
      var public := Slice(text, ip.value);
      var cd := JsonDictValue(public, category, |category|);
      if cd.None? {
        return Fail;
      }
      var categoryData := Slice(public, cd.value);
      var v := JsonStringValue(categoryData, item, |item|);
      if v.None? {
        return Fail;
      }
      attribute := Some(Slice(categoryData, v.value));
      r := Success;
    }
  }

  /** The loop of `calvinsys_attribute_write` that looks for the first '.' of the path. */
  method Split(path: string) returns (split: Option<(string, string)>)
    ensures split == SplitPath(path)
  {
    var pos := 0;
    while pos < |path|
      invariant 0 <= pos <= |path|
      invariant forall j | 0 <= j < pos :: path[j] != '.'
    {
      if path[pos] == '.' {
        FirstDotAt(path, 0, pos);
        return Some((path[..pos], path[pos + 1..]));
      }
      pos := pos + 1;
    }
    return None;
  }

  lemma {:induction false} FirstDotAt(path: string, pos: nat, d: nat)
    requires pos <= d < |path| && path[d] == '.'
    requires forall j | pos <= j < d :: path[j] != '.'
    ensures FirstDot(path, pos) == Some(d)
    decreases d - pos
  {
    if pos < d {
      FirstDotAt(path, pos + 1, d);
    }
  }

  /** `calvinsys_attribute_create`: registers "sys.attribute.indexed" with an `open`. */
  method Create(sys: Calvinsys) returns (r: CcResult)
    modifies sys`capabilities
    ensures Lookup(old(sys.capabilities), AttributeCapability).Some? ==> r == Fail && sys.capabilities == old(sys.capabilities)
    ensures Lookup(old(sys.capabilities), AttributeCapability).None? ==>
      r == Success && sys.capabilities == old(sys.capabilities) + [Item(AttributeCapability, Capability(true), 0, true)]
  {
    r := sys.CreateCapability(AttributeCapability, true);
  }
}
