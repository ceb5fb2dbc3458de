/**
 * Tunnels to peer runtimes (runtime/north/cc_tunnel.c). A tunnel carries
 * one kind of traffic over a link. The node lists its tunnels under each
 * tunnel's own id, so renaming a tunnel renames its list key too. A tunnel
 * counts the ports that use it in an 8-bit reference count; at zero it is
 * destroyed, unlisted and its link loses a reference.
 */
module CcTunnel {
  import opened Wrappers
  import opened Machine
  import opened Text
  import opened CcCommon
  import opened CcLink

  datatype TunnelState = Disconnected | Enabled | Pending
  datatype TunnelKind = StorageTunnel | TokenTunnel | ProxyTunnel

  class Tunnel {
    const link: Link
    const kind: TunnelKind
    var state: TunnelState
    var refCount: u8
    var id: string

    constructor (link: Link, kind: TunnelKind, state: TunnelState, id: string)
      ensures this.link == link && this.kind == kind && this.state == state && refCount == 0 && this.id == id
    {
      this.link := link;
      this.kind := kind;
      this.state := state;
      refCount := 0;
      this.id := id;
    }
  }

  /** The id `gen_uuid(tunnel->id, "TUNNEL_")` writes, without its terminator. */
  function GeneratedId(rand: seq<nat>): (r: string)
    requires |rand| == 36
    ensures |r| == 43 && r[..7] == "TUNNEL_"
  {
    UuidText("TUNNEL_", rand)[..43]
  }

  /** The index of the first tunnel of `kind` whose link's peer id agrees with `peerId` on `n` characters. */
  function FirstOfPeer(tunnels: seq<Tunnel>, peerId: string, n: nat, kind: TunnelKind): (r: Option<nat>)
    ensures r.Some? ==> r.value < |tunnels| && tunnels[r.value].kind == kind && StrNEq(tunnels[r.value].link.peerId, peerId, n)
    ensures r.Some? ==> forall j | 0 <= j < r.value :: !(tunnels[j].kind == kind && StrNEq(tunnels[j].link.peerId, peerId, n))
    ensures r.None? ==> forall j | 0 <= j < |tunnels| :: !(tunnels[j].kind == kind && StrNEq(tunnels[j].link.peerId, peerId, n))
  {
    if |tunnels| == 0 then None
    else if tunnels[0].kind == kind && StrNEq(tunnels[0].link.peerId, peerId, n) then Some(0)
    else match FirstOfPeer(tunnels[1..], peerId, n, kind)
      case None => None
      case Some(i) => Some(i + 1)
  }

  /** The index of the first tunnel whose id agrees with `id` on `n` characters: `list_get_n` over the tunnel list. */
  function FirstWithId(tunnels: seq<Tunnel>, id: string, n: nat): (r: Option<nat>)
    reads (set t | t in tunnels)`id
    ensures r.Some? ==> r.value < |tunnels| && StrNEq(tunnels[r.value].id, id, n)
  {
    if |tunnels| == 0 then None
    else if StrNEq(tunnels[0].id, id, n) then Some(0)
    else match FirstWithId(tunnels[1..], id, n)
      case None => None
      case Some(i) => Some(i + 1)
  }

  /** The tunnel found is the first whose id matches, and none is found only when no id matches. */
  lemma {:induction false} FirstWithIdMeaning(tunnels: seq<Tunnel>, id: string, n: nat)
    ensures FirstWithId(tunnels, id, n).Some? ==>
      forall j | 0 <= j < FirstWithId(tunnels, id, n).value :: !StrNEq(tunnels[j].id, id, n)
    ensures FirstWithId(tunnels, id, n).None? ==> forall j | 0 <= j < |tunnels| :: !StrNEq(tunnels[j].id, id, n)
  {
    if |tunnels| > 0 {
      FirstWithIdMeaning(tunnels[1..], id, n);
      assert forall j | 0 < j < |tunnels| :: tunnels[1..][j - 1] == tunnels[j];
    }
  }

  /** The tunnels left after `list_remove(&node->tunnels, key)`: the first one whose id is a prefix of `key` is unlinked. */
  function UnlistedTunnel(tunnels: seq<Tunnel>, key: string): (r: seq<Tunnel>)
    reads (set t | t in tunnels)`id
    ensures |r| <= |tunnels| && forall t | t in r :: t in tunnels
  {
    if |tunnels| == 0 then []
    else if tunnels[0].id <= key then tunnels[1..]
    else [tunnels[0]] + UnlistedTunnel(tunnels[1..], key)
  }

  /** The id a runtime keeps when the peer proposes `theirs` for a tunnel it calls `mine`: the higher of the two. */
  function Adopted(mine: string, theirs: string): string
  {
    if Higher(theirs, |theirs|, mine, |mine|) then StrNCpy(mine, theirs, |theirs|) else mine
  }

  /**
   * When both ends of a tunnel were created with different ids and each
   * receives the other's TUNNEL_NEW request, both settle on the same id.
   */
  lemma AdoptedAgrees(a: string, b: string)
    requires a != b
    ensures Adopted(a, b) == Adopted(b, a)
  {
    assert a[..|a|] == a && b[..|b|] == b;
    HigherTotal(a, |a|, b, |b|);
    HigherAsymmetric(a, |a|, b, |b|);
  }

  /** The id kept with the comparison as written, which reads each id's terminator. */
  function AdoptedAsWritten(mine: string, theirs: string): string
  {
    if HigherAsWritten(theirs + "\0", |theirs|, mine + "\0", |mine|) then StrNCpy(mine, theirs, |theirs|) else mine
  }

  /** With the comparison as written, ends holding "ab" and "ba" swap ids and still disagree. */
  lemma AdoptedAsWrittenDisagrees()
    ensures AdoptedAsWritten("ab", "ba") == "ba" && AdoptedAsWritten("ba", "ab") == "ab"
  {
    assert "ba" + "\0" == "ba\0" && "ab" + "\0" == "ab\0";
    HigherAsWrittenNotAntisymmetric();
  }

  /** The node's tunnel list, `node->tunnels`, beside its link list. */
  class TunnelTable {
    const links: LinkTable
    var tunnels: seq<Tunnel>

    constructor (links: LinkTable)
      ensures this.links == links && tunnels == []
    {
      this.links := links;
      tunnels := [];
    }

    /** `tunnel_get_from_id`: the first tunnel whose id starts with the first `n` characters of `id`. */
    method GetFromId(id: string, n: nat) returns (r: Option<Tunnel>)
      ensures r.None? <==> FirstWithId(tunnels, id, n).None?
      ensures r.Some? ==> r.value == tunnels[FirstWithId(tunnels, id, n).value]
    {
      var i := 0;
      while i < |tunnels|
        invariant 0 <= i <= |tunnels|
        invariant forall j | 0 <= j < i :: !StrNEq(tunnels[j].id, id, n)
      {
        if StrNEq(tunnels[i].id, id, n) {
          FirstWithIdMeaning(tunnels, id, n);
          return Some(tunnels[i]);
        }
        i := i + 1;
      }
      FirstWithIdMeaning(tunnels, id, n);
      return None;
    }

    /** `tunnel_get_from_peerid_and_type`: the first tunnel of that kind whose link leads to the peer. */
    method GetFromPeerIdAndType(peerId: string, n: nat, kind: TunnelKind) returns (r: Option<Tunnel>)
      ensures r.None? <==> FirstOfPeer(tunnels, peerId, n, kind).None?
      ensures r.Some? ==> r.value == tunnels[FirstOfPeer(tunnels, peerId, n, kind).value]
    {
      var i := 0;
      while i < |tunnels|
        invariant 0 <= i <= |tunnels|
        invariant forall j | 0 <= j < i :: !(tunnels[j].kind == kind && StrNEq(tunnels[j].link.peerId, peerId, n))
      {
        if tunnels[i].kind == kind && StrNEq(tunnels[i].link.peerId, peerId, n) {
          assert FirstOfPeer(tunnels, peerId, n, kind) == Some(i);
          return Some(tunnels[i]);
        }
        i := i + 1;
      }
      return None;
    }

    /**
     * `tunnel_create`. A tunnel of that kind to that peer is returned as it
     * is. Otherwise the peer's link is looked up, or created with the proxy
     * flag set when the peer is the node's proxy, and a tunnel with no
     * references is made: its id is the first `idLen` characters of `tunnelId`,
     * or a generated one. A tunnel not created ENABLED requests the peer's
     * tunnel (`sent` is whether that request went out): sent, it is PENDING;
     * not sent, no tunnel is listed and the result is None. A listed tunnel
     * adds one reference to its link.
     */
    method Create(kind: TunnelKind, state: TunnelState, peerId: string, n: nat, tunnelId: Option<string>, idLen: nat,
                  proxyPeerId: string, rand: seq<nat>, sent: bool) returns (r: Option<Tunnel>)
      requires |rand| == 36
      modifies this`tunnels, links`links, (set l | l in links.links)`refCount
      ensures FirstOfPeer(old(tunnels), peerId, n, kind).Some? ==>
        r == Some(old(tunnels)[FirstOfPeer(old(tunnels), peerId, n, kind).value])
        && tunnels == old(tunnels) && links.links == old(links.links)
      ensures FirstOfPeer(old(tunnels), peerId, n, kind).None? && state != Enabled && !sent ==>
        r.None? && tunnels == old(tunnels)
      ensures FirstOfPeer(old(tunnels), peerId, n, kind).None? && (state == Enabled || sent) ==>
        r.Some? && fresh(r.value) && tunnels == old(tunnels) + [r.value]
        && r.value.kind == kind && r.value.refCount == 0
        && r.value.state == (if state == Enabled then Enabled else Pending)
        && r.value.id == (if tunnelId.Some? then Prefix(tunnelId.value, idLen) else GeneratedId(rand))
        && StrNEq(r.value.link.peerId, peerId, n) && r.value.link in links.links
      ensures FirstOfPeer(old(tunnels), peerId, n, kind).None? && (state == Enabled || sent) && FirstPeer(old(links.links), peerId, n).Some? ==>
        r.value.link == old(links.links)[FirstPeer(old(links.links), peerId, n).value]
        && r.value.link.refCount == Inc8(old(links.links[FirstPeer(links.links, peerId, n).value].refCount))
        && links.links == old(links.links)
      ensures FirstOfPeer(old(tunnels), peerId, n, kind).None? && FirstPeer(old(links.links), peerId, n).None? ==>
        |links.links| == |old(links.links)| + 1 && links.links[..|old(links.links)|] == old(links.links)
        && links.links[|old(links.links)|].peerId == Prefix(peerId, n)
        && links.links[|old(links.links)|].isProxy == StrNEq(proxyPeerId, peerId, n)
      ensures FirstOfPeer(old(tunnels), peerId, n, kind).None? && (state == Enabled || sent) && FirstPeer(old(links.links), peerId, n).None? ==>
        r.value.link == links.links[|old(links.links)|] && r.value.link.refCount == 1
    {
      var existing := GetFromPeerIdAndType(peerId, n, kind);
      if existing.Some? {
        return existing;
      }
      var link := links.Get(peerId, n);
      if link.None? {
        var created := links.Create(peerId, n, StrNEq(proxyPeerId, peerId, n));
        link := Some(created);
      }
      var id := if tunnelId.Some? then StrNCpy("", tunnelId.value, idLen) else GeneratedId(rand);
      var tunnel := new Tunnel(link.value, kind, state, id);
      if state != Enabled {
        if sent {
          tunnel.state := Pending;
        } else {
          return None;
        }
      }
      tunnels := tunnels + [tunnel];
      AddRef(link);
      r := Some(tunnel);
    }

    /**
     * `tunnel_free`: the tunnel is unlisted by its own id and its link loses
     * a reference, the link being unlisted in turn when that was its last.
     */
    method Free(tunnel: Tunnel)
      modifies this`tunnels, links`links, tunnel.link`refCount
      ensures tunnels == UnlistedTunnel(old(tunnels), tunnel.id)
      ensures tunnel.link.refCount == Dec8(old(tunnel.link.refCount))
      ensures links.links == if tunnel.link.refCount == 0 then Unlisted(old(links.links), tunnel.link.peerId) else old(links.links)
    {
      tunnels := UnlistedTunnel(tunnels, tunnel.id);
      links.RemoveRef(Some(tunnel.link));
    }

    /**
     * `tunnel_remove_ref`: NULL is ignored. Otherwise the count drops by one,
     * wrapping at zero; a tunnel that reaches zero is destroyed (`destroyed`
     * says a destroy request was sent, whatever its outcome) and freed.
     */
    method RemoveRef(tunnel: Option<Tunnel>) returns (destroyed: bool)
      modifies this`tunnels, links`links, (if tunnel.Some? then {tunnel.value} else {})`refCount,
        (if tunnel.Some? then {tunnel.value.link} else {})`refCount
      ensures tunnel.None? ==> !destroyed && tunnels == old(tunnels) && links.links == old(links.links)
      ensures tunnel.Some? ==> tunnel.value.refCount == Dec8(old(tunnel.value.refCount))
      ensures tunnel.Some? ==> tunnel.value.id == old(tunnel.value.id) && tunnel.value.state == old(tunnel.value.state)
      ensures tunnel.Some? ==> destroyed == (tunnel.value.refCount == 0)
      ensures tunnel.Some? && !destroyed ==>
        tunnels == old(tunnels) && links.links == old(links.links)
        && tunnel.value.link.refCount == old(tunnel.value.link.refCount)
      ensures destroyed ==>
        tunnels == UnlistedTunnel(old(tunnels), tunnel.value.id)
        && tunnel.value.link.refCount == Dec8(old(tunnel.value.link.refCount))
        && links.links == if tunnel.value.link.refCount == 0 then Unlisted(old(links.links), tunnel.value.link.peerId) else old(links.links)
    {
      if tunnel.None? {
        return false;
      }
      var t := tunnel.value;
      t.refCount := Dec8(t.refCount);
      destroyed := t.refCount == 0;
      if destroyed {
        Free(t);
      }
    }

    /**
     * `tunnel_handle_tunnel_new_request`: the peer proposes a token tunnel
     * named `tunnelId`. An ENABLED token tunnel to the peer is kept as it
     * is. A token tunnel in another state takes the proposed id when that
     * id is the higher one, and becomes ENABLED. Without one, an ENABLED
     * token tunnel with the proposed id is created. The result is success.
     */
    method HandleTunnelNewRequest(peerId: string, n: nat, tunnelId: string, idLen: nat, proxyPeerId: string, rand: seq<nat>)
      returns (r: CcResult)
      requires idLen <= |tunnelId| && |rand| == 36
      modifies this`tunnels, links`links, (set l | l in links.links)`refCount, (set t | t in tunnels)`id, (set t | t in tunnels)`state
      ensures r == Success
      ensures FirstOfPeer(tunnels, peerId, n, TokenTunnel).Some?
      ensures tunnels[FirstOfPeer(tunnels, peerId, n, TokenTunnel).value].state == Enabled
      ensures FirstOfPeer(old(tunnels), peerId, n, TokenTunnel).Some? ==> tunnels == old(tunnels) && links.links == old(links.links)
      ensures FirstOfPeer(old(tunnels), peerId, n, TokenTunnel).Some? ==>
        var t := old(tunnels)[FirstOfPeer(old(tunnels), peerId, n, TokenTunnel).value];
        t.id == (if old(t.state) == Enabled then old(t.id) else Adopted(old(t.id), tunnelId[..idLen]))
      ensures FirstOfPeer(old(tunnels), peerId, n, TokenTunnel).None? ==>
        |tunnels| == |old(tunnels)| + 1 && tunnels[..|old(tunnels)|] == old(tunnels)
        && tunnels[|old(tunnels)|].id == tunnelId[..idLen] && tunnels[|old(tunnels)|].refCount == 0
    {
      var existing := GetFromPeerIdAndType(peerId, n, TokenTunnel);
      if existing.Some? {
        var t := existing.value;
        if t.state == Enabled {
          return Success;
        }
        var higher := UuidIsHigher(tunnelId, idLen, t.id, |t.id|);
        if higher {
          t.id := StrNCpy(t.id, tunnelId, idLen);
        }
        assert t.id == Adopted(old(t.id), tunnelId[..idLen]) by {
          assert tunnelId[..idLen][..idLen] == tunnelId[..idLen] && old(t.id)[..|old(t.id)|] == old(t.id);
          assert Higher(tunnelId, idLen, old(t.id), |old(t.id)|) <==> Higher(tunnelId[..idLen], idLen, old(t.id), |old(t.id)|);
          assert StrNCpy(old(t.id), tunnelId, idLen) == StrNCpy(old(t.id), tunnelId[..idLen], idLen);
        }
        t.state := Enabled;
        return Success;
      }
      var created := Create(TokenTunnel, Enabled, peerId, n, Some(tunnelId), idLen, proxyPeerId, rand, false);
      assert FirstOfPeer(tunnels, peerId, n, TokenTunnel) == Some(|old(tunnels)|) by {
        CreatedFoundByPeer(old(tunnels), created.value, peerId, n, TokenTunnel);
      }
      r := Success;
    }
  }

  /** `tunnel_add_ref`: one more reference, wrapping past 255; NULL is ignored. */
  method AddTunnelRef(tunnel: Option<Tunnel>)
    modifies (if tunnel.Some? then {tunnel.value} else {})`refCount
    ensures tunnel.Some? ==> tunnel.value.refCount == Inc8(old(tunnel.value.refCount))
  {
    if tunnel.Some? {
      tunnel.value.refCount := Inc8(tunnel.value.refCount);
    }
  }

  /**
   * `tunnel_request_handler`: the reply to a tunnel request, parsed into the
   * tunnel id (and its length) and the status, None when a field is
   * missing. Without a tunnel, or with an unparsable reply, it fails and
   * changes nothing. Otherwise the tunnel takes the id; status 200 makes
   * it ENABLED, any other status DISCONNECTED and a failure.
   */
  method RequestReply(tunnel: Option<Tunnel>, reply: Option<(string, nat, u32)>) returns (r: CcResult)
    modifies if tunnel.Some? then {tunnel.value} else {}
    ensures tunnel.None? || reply.None? ==> r == Fail
    ensures tunnel.Some? && reply.None? ==> tunnel.value.id == old(tunnel.value.id) && tunnel.value.state == old(tunnel.value.state)
    ensures tunnel.Some? && reply.Some? ==>
      tunnel.value.id == StrNCpy(old(tunnel.value.id), reply.value.0, reply.value.1)
      && (reply.value.2 == 200 ==> tunnel.value.state == Enabled && r == Success)
      && (reply.value.2 != 200 ==> tunnel.value.state == Disconnected && r == Fail)
  {
    if tunnel.None? || reply.None? {
      return Fail;
    }
    var (id, len, status) := reply.value;
    tunnel.value.id := StrNCpy(tunnel.value.id, id, len);
    if status == 200 {
      tunnel.value.state := Enabled;
      return Success;
    }
    tunnel.value.state := Disconnected;
    r := Fail;
  }

  /** A tunnel appended for a peer with no tunnel of that kind is what the lookup by peer and kind then finds. */
  lemma {:induction false} CreatedFoundByPeer(tunnels: seq<Tunnel>, t: Tunnel, peerId: string, n: nat, kind: TunnelKind)
    requires FirstOfPeer(tunnels, peerId, n, kind).None? && t.kind == kind && StrNEq(t.link.peerId, peerId, n)
    ensures FirstOfPeer(tunnels + [t], peerId, n, kind) == Some(|tunnels|)
  {
    if |tunnels| > 0 {
      assert (tunnels + [t])[1..] == tunnels[1..] + [t];
      CreatedFoundByPeer(tunnels[1..], t, peerId, n, kind);
    }
  }
}
