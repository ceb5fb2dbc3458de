/**
 * Links to peer runtimes (runtime/north/cc_link.c). The node keeps its links
 * in a string-keyed list whose key is each link's peer id. A link counts
 * the tunnels that use it in an 8-bit reference count and is unlisted when
 * that count drops to zero.
 */
module CcLink {
  import opened Wrappers
  import opened Machine
  import opened Text
  import opened CcToken

  class Link {
    const peerId: string
    const isProxy: bool
    var refCount: u8

    /** A link to `peerId`, not yet referenced by any tunnel. */
    constructor (peerId: string, isProxy: bool)
      ensures this.peerId == peerId && this.isProxy == isProxy && refCount == 0
    {
      this.peerId := peerId;
      this.isProxy := isProxy;
      refCount := 0;
    }
  }

  /** The index of the first link whose peer id agrees with `query` on its first `n` characters: what `link_get` finds. */
  function FirstPeer(links: seq<Link>, query: string, n: nat): (r: Option<nat>)
    ensures r.Some? ==> r.value < |links| && StrNEq(links[r.value].peerId, query, n)
    ensures r.Some? ==> forall j | 0 <= j < r.value :: !StrNEq(links[j].peerId, query, n)
    ensures r.None? ==> forall j | 0 <= j < |links| :: !StrNEq(links[j].peerId, query, n)
  {
    if |links| == 0 then None
    else if StrNEq(links[0].peerId, query, n) then Some(0)
    else match FirstPeer(links[1..], query, n)
      case None => None
      case Some(i) => Some(i + 1)
  }

  /** The links left after `list_remove(&node->links, key)`: the first link whose peer id is a prefix of `key` is unlinked. */
  function Unlisted(links: seq<Link>, key: string): (r: seq<Link>)
    ensures |r| <= |links|
    ensures forall l | l in r :: l in links
  {
    if |links| == 0 then []
    else if links[0].peerId <= key then links[1..]
    else [links[0]] + Unlisted(links[1..], key)
  }

  /** Removing by a link's own peer id unlists that link when no earlier link's peer id is a prefix of it, and keeps the rest in order. */
  lemma {:induction false} UnlistedOwn(links: seq<Link>, i: nat)
    requires i < |links| && forall j | 0 <= j < i :: !(links[j].peerId <= links[i].peerId)
    ensures Unlisted(links, links[i].peerId) == links[..i] + links[i + 1..]
  {
    if i > 0 {
      assert links[1..][i - 1] == links[i];
      UnlistedOwn(links[1..], i - 1);
      assert links[1..][..i - 1] == links[1..i];
      assert links[1..][i..] == links[i + 1..];
      assert links[..i] == [links[0]] + links[1..i];
    }
  }

  /** The node's link list, `node->links`. */
  class LinkTable {
    var links: seq<Link>

    constructor ()
      ensures links == []
    {
      links := [];
    }

    /** `link_get`: the first link whose peer id starts with the first `n` characters of `peerId`, or None. */
    method Get(peerId: string, n: nat) returns (r: Option<Link>)
      ensures r.None? <==> FirstPeer(links, peerId, n).None?
      ensures r.Some? ==> r.value == links[FirstPeer(links, peerId, n).value]
    {
      var i := 0;
      while i < |links|
        invariant 0 <= i <= |links|
        invariant forall j | 0 <= j < i :: !StrNEq(links[j].peerId, peerId, n)
      {
        if StrNEq(links[i].peerId, peerId, n) {
          assert FirstPeer(links, peerId, n) == Some(i);
          return Some(links[i]);
        }
        i := i + 1;
      }
      return None;
    }

    /**
     * `link_create`: a peer that already has a link gets that link back and
     * nothing changes. Otherwise a link holding the first `n` characters of
     * `peerId`, with no references, is appended to the list.
     */
    method Create(peerId: string, n: nat, isProxy: bool) returns (link: Link)
      modifies this`links
      ensures FirstPeer(old(links), peerId, n).Some? ==>
        link == old(links)[FirstPeer(old(links), peerId, n).value] && links == old(links)
      ensures FirstPeer(old(links), peerId, n).None? ==>
        fresh(link) && link.peerId == Prefix(peerId, n) && link.isProxy == isProxy && link.refCount == 0
        && links == old(links) + [link]
    {
      var existing := Get(peerId, n);
      if existing.Some? {
        return existing.value;
      }
      link := new Link(Prefix(peerId, n), isProxy);
      links := links + [link];
    }

    /** `link_remove_ref`: the count drops by one, wrapping at zero as a `uint8_t` does; a link that reaches zero is unlisted. */
    method RemoveRef(link: Option<Link>)
      modifies this`links, (if link.Some? then {link.value} else {})`refCount
      ensures link.None? ==> links == old(links)
      ensures link.Some? ==> link.value.refCount == Dec8(old(link.value.refCount))
      ensures link.Some? && link.value.refCount == 0 ==> links == Unlisted(old(links), link.value.peerId)
      ensures link.Some? && link.value.refCount != 0 ==> links == old(links)
    {
      if link.Some? {
        link.value.refCount := Dec8(link.value.refCount);
        if link.value.refCount == 0 {
          links := Unlisted(links, link.value.peerId);
        }
      }
    }
  }

  /** `link_add_ref`: one more reference, wrapping past 255 as a `uint8_t` does; NULL is ignored. */
  method AddRef(link: Option<Link>)
    modifies (if link.Some? then {link.value} else {})`refCount
    ensures link.Some? ==> link.value.refCount == Inc8(old(link.value.refCount))
  {
    if link.Some? {
      link.value.refCount := Inc8(link.value.refCount);
    }
  }

  /** `link_serialize`: a map of "peer_id" and "is_proxy". */
  function Serialize(peerId: string, isProxy: bool): seq<Field>
  {
    [Field("peer_id", Some(Str(peerId))), Field("is_proxy", Some(Bool(isProxy)))]
  }

  /** The value stored under `key` in a decoded map: the first entry with that key. */
  function FieldValue(m: seq<Field>, key: string): (r: Option<Value>)
    ensures r.Some? ==> exists i | 0 <= i < |m| :: m[i].key == key && m[i].data == r
  {
    if |m| == 0 then None
    else if m[0].key == key then m[0].data
    else FieldValue(m[1..], key)
  }

  /** The peer id and proxy flag `link_deserialize` reads before creating the link; a missing or mistyped entry gives None. */
  function Deserialized(m: seq<Field>): Option<(string, bool)>
  {
    match (FieldValue(m, "peer_id"), FieldValue(m, "is_proxy"))
    case (Some(Str(p)), Some(Bool(b))) => Some((p, b))
    case _ => None
  }

  /** Reading a serialized link gives back its peer id and proxy flag. */
  lemma SerializeRoundTrip(peerId: string, isProxy: bool)
    ensures Deserialized(Serialize(peerId, isProxy)) == Some((peerId, isProxy))
  {
    var m := Serialize(peerId, isProxy);
    assert "is_proxy" != "peer_id" by { assert "is_proxy"[1] != "peer_id"[1]; }
    assert FieldValue(m, "is_proxy") == FieldValue(m[1..], "is_proxy");
  }

  /**
   * `link_deserialize`: decodes the two entries and creates the link from
   * them; a map missing either fails with no change.
   */
  method Deserialize(table: LinkTable, m: seq<Field>) returns (link: Option<Link>)
    modifies table`links
    ensures Deserialized(m).None? ==> link.None? && table.links == old(table.links)
    ensures Deserialized(m).Some? ==> link.Some?
    ensures Deserialized(m).Some? && FirstPeer(old(table.links), Deserialized(m).value.0, |Deserialized(m).value.0|).None? ==>
      link.value.peerId == Deserialized(m).value.0 && link.value.isProxy == Deserialized(m).value.1
  {
    var fields := Deserialized(m);
    if fields.None? {
      return None;
    }
    var (peerId, isProxy) := fields.value;
    var l := table.Create(peerId, |peerId|, isProxy);
    link := Some(l);
  }

  /** A link created for a peer with no link is what a later lookup of that peer finds. */
  lemma {:induction false} CreatedFound(links: seq<Link>, link: Link, peerId: string, n: nat)
    requires FirstPeer(links, peerId, n).None? && link.peerId == Prefix(peerId, n)
    ensures FirstPeer(links + [link], peerId, n) == Some(|links|)
  {
    assert StrNEq(link.peerId, peerId, n) by {
      assert Prefix(Prefix(peerId, n), n) == Prefix(peerId, n);
    }
    if |links| > 0 {
      assert (links + [link])[1..] == links[1..] + [link];
      CreatedFound(links[1..], link, peerId, n);
    }
  }
}
