/**
 * The first-generation links to peer runtimes (link.c). The node keeps its
 * links in the string-keyed list of common.c, keyed by each link's own peer
 * id; a link is counted by the tunnels that use it and freed when the
 * count reaches zero. A link in DO_CONNECT asks the proxy for a route and
 * waits for the reply.
 *
 * Message encoding and sending are outside the model: whether the route
 * request was sent and what the reply decodes to are parameters.
 */
module LegacyLink {
  import opened Wrappers
  import opened Text
  import opened CcCommon

  /** The link states `link.c` uses. */
  datatype LinkState = DoConnect | Pending | Enabled | ConnectFailed

  class Link {
    const peerId: string
    const isProxy: bool
    var state: LinkState
    var refCount: int

    /** A link to `peerId` in `state`, not yet referenced. */
    constructor (peerId: string, state: LinkState, isProxy: bool)
      ensures this.peerId == peerId && this.state == state && this.isProxy == isProxy && refCount == 0
    {
      this.peerId := peerId;
      this.state := state;
      this.isProxy := isProxy;
      refCount := 0;
    }
  }

  /** `sizeof(link_t)`, the data length recorded in the list. */
  const LinkSize: nat := 1

  /** An entry appended under the first `n` characters of `query` is the first that agrees with `query` on them, when no earlier entry did. */
  lemma {:induction false} FoundAfterAppend<T>(items: seq<Item<T>>, x: Item<T>, query: string, n: nat)
    requires FirstStartingWith(items, query, n).None? && x.id == Prefix(query, n)
    ensures FirstStartingWith(items + [x], query, n) == Some(|items|)
    decreases |items|
  {
    if |items| > 0 {
      assert (items + [x])[1..] == items[1..] + [x];
      FoundAfterAppend(items[1..], x, query, n);
    } else {
      assert Prefix(Prefix(query, n), n) == Prefix(query, n);
      assert [] + [x] == [x];
    }
  }

  /** Removing by an entry's own id unlinks that entry, when no earlier entry's id is a prefix of it. */
  lemma RemoveOwn<T>(items: seq<Item<T>>, i: nat)
    requires i < |items| && forall j | 0 <= j < i :: !(items[j].id <= items[i].id)
    ensures RemoveFirst(items, items[i].id) == items[..i] + items[i + 1..]
  {
    FirstPrefixAt(items, items[i].id, i);
  }

  lemma {:induction false} FirstPrefixAt<T>(items: seq<Item<T>>, key: string, i: nat)
    requires i < |items| && items[i].id <= key && forall j | 0 <= j < i :: !(items[j].id <= key)
    ensures FirstPrefixOf(items, key) == Some(i)
    decreases i
  {
    if i > 0 {
      assert items[1..][i - 1] == items[i];
      FirstPrefixAt(items[1..], key, i - 1);
    }
  }

  /** The node's links, `node->links`. */
  class LinkTable {
    const list: CcList<Link>

    /** Each entry is keyed by its link's peer id. */
    ghost predicate Valid()
      reads this, list
    {
      forall i | 0 <= i < |list.items| :: list.items[i].id == list.items[i].data.peerId
    }

    constructor ()
      ensures Valid() && list.items == [] && fresh(list)
    {
      list := new CcList<Link>();
    }

    /** `link_get`: the first link whose peer id starts with the first `n` characters of `query`, or None. */
    method Get(query: string, n: nat) returns (r: Option<Link>)
      requires Valid()
      ensures r.None? <==> FirstStartingWith(list.items, query, n).None?
      ensures r.Some? ==> r.value == list.items[FirstStartingWith(list.items, query, n).value].data
    {
      var i := 0;
      while i < |list.items|
        invariant 0 <= i <= |list.items|
        invariant forall j | 0 <= j < i :: !StrNEq(list.items[j].id, query, n)
      {
        var link := list.items[i].data;
        if StrNEq(link.peerId, query, n) {
          assert FirstStartingWith(list.items, query, n) == Some(i);
          return Some(link);
        }
        i := i + 1;
      }
      return None;
    }

    /**
     * `link_create`: a peer that already has a link gets that link back and
     * nothing changes. Otherwise a new link, holding the first `n`
     * characters of `peerId`, in `state` and with no references, is
     * appended to the list; None when allocating it (`allocOk`) or its
     * list entry (`listOk`) fails, with the list unchanged.
     */
    method Create(peerId: string, n: nat, state: LinkState, isProxy: bool, allocOk: bool, listOk: bool) returns (r: Option<Link>)
      requires Valid()
      modifies list
      ensures Valid()
      ensures FirstStartingWith(old(list.items), peerId, n).Some? ==>
        r == Some(old(list.items)[FirstStartingWith(old(list.items), peerId, n).value].data) && list.items == old(list.items)
      ensures FirstStartingWith(old(list.items), peerId, n).None? && !(allocOk && listOk) ==>
        r.None? && list.items == old(list.items)
      ensures FirstStartingWith(old(list.items), peerId, n).None? && allocOk && listOk ==>
        r.Some? && fresh(r.value) && r.value.peerId == Prefix(peerId, n) && r.value.state == state
        && r.value.isProxy == isProxy && r.value.refCount == 0
        && list.items == old(list.items) + [Item(r.value.peerId, r.value, LinkSize, false)]
        && FirstStartingWith(list.items, peerId, n) == Some(|old(list.items)|)
    {
      r := Get(peerId, n);
      if r.Some? || !allocOk {
        return;
      }
      var link := new Link(Prefix(peerId, n), state, isProxy);
      if !listOk {
        return None;
      }
      list.Add(link.peerId, link, LinkSize);
      FoundAfterAppend(old(list.items), Item(link.peerId, link, LinkSize, false), peerId, n);
      r := Some(link);
    }

    /**
     * `link_remove_ref`: the count drops by one; at zero the link is freed
     * after `list_remove` unlinks the first entry whose id is a prefix of
     * its peer id, which is its own entry unless an earlier link's peer id
     * is a prefix of its own. NULL is ignored.
     */
    method RemoveRef(link: Link?)
      requires Valid()
      modifies list, if link != null then {link} else {}
      ensures Valid()
      ensures link == null ==> list.items == old(list.items)
      ensures link != null ==> link.refCount == old(link.refCount) - 1
      ensures link != null && link.refCount == 0 ==> list.items == RemoveFirst(old(list.items), link.peerId)
      ensures link != null && link.refCount != 0 ==> list.items == old(list.items)
    {
      if link != null {
        link.refCount := link.refCount - 1;
        if link.refCount == 0 {
          list.Remove(link.peerId);
          RemovedKeepsKeys(old(list.items), link.peerId);
        }
      }
    }

    /**
     * `link_request_handler`: the reply to a route request. A reply that
     * does not decode (`reply` None) or names a peer without a link fails.
     * Status 200 enables the link; any other status marks it
     * CONNECT_FAILED and fails.
     */
    method HandleRouteReply(reply: Option<(nat, string)>) returns (r: CcResult, link: Option<Link>)
      requires Valid()
      modifies (set i | 0 <= i < |list.items| :: list.items[i].data)`state
      ensures r != PendingResult
      ensures forall i | 0 <= i < |list.items| :: list.items[i].data.refCount == old(list.items[i].data.refCount)
      ensures forall i | 0 <= i < |list.items| && (link.None? || list.items[i].data != link.value) ::
        list.items[i].data.state == old(list.items[i].data.state)
      ensures reply.None? ==> r == Fail && link.None?
      ensures reply.Some? ==> var (status, peer) := reply.value;
        var found := FirstStartingWith(list.items, peer, |peer|);
        (found.None? ==> r == Fail && link.None?)
        && (found.Some? ==> (
          link == Some(list.items[found.value].data) && (r == Success <==> status == 200)
          && link.value.state == (if status == 200 then Enabled else ConnectFailed)))
    {
      if reply.None? {
        return Fail, None;
      }
      var (status, peer) := reply.value;
      link := Get(peer, |peer|);
      if link.None? {
        return Fail, None;
      }
      if status == 200 {
        link.value.state := Enabled;
        r := Success;
      } else {
        link.value.state := ConnectFailed;
        r := Fail;
      }
    }
  }

  lemma RemovedKeepsKeys(items: seq<Item<Link>>, key: string)
    requires forall i | 0 <= i < |items| :: items[i].id == items[i].data.peerId
    ensures var r := RemoveFirst(items, key);
      forall i | 0 <= i < |r| :: r[i].id == r[i].data.peerId
  {
    match FirstPrefixOf(items, key)
    case None =>
    case Some(k) =>
      var r := items[..k] + items[k + 1..];
      assert forall i | 0 <= i < |r| :: r[i] == (if i < k then items[i] else items[i + 1]);
  }

  /** `link_add_ref`: one more reference; NULL is ignored. */
  method AddRef(link: Link?)
    modifies if link != null then {link} else {}
    ensures link != null ==> link.refCount == old(link.refCount) + 1
  {
    if link != null {
      link.refCount := link.refCount + 1;
    }
  }

  /** `link_transmit`: a link in DO_CONNECT becomes PENDING once its route request is sent; any other state, or a failed send, changes nothing. */
  method Transmit(link: Link, sent: bool)
    modifies link`state
    ensures link.state == if old(link.state) == DoConnect && sent then Pending else old(link.state)
  {
    if link.state == DoConnect && sent {
      link.state := Pending;
    }
  }
}
