/**
 * The Spritzer board's socket transport
 * (runtime/south/transport/spritzer/cc_transport_spritzer.c): the URI
 * "calvinip://<host>:<port>" is split into the host, kept as a
 * NUL-terminated copy, and the port number. Sockets, connecting and the
 * NT_Read/NT_Write calls are outside the model.
 */
module CcTransportSpritzer {
  import opened Wrappers
  import opened Text
  import opened CcTransport

  const Scheme := "calvinip://"

  /** `CC_MAX_URI_LEN`: how much of the URI the client keeps. */
  const MaxUriLen: nat := 50

  /** The last ':' of `uri` after the first character of the host; the scan of `cc_transport_spritzer_parse_uri` stops before index 12. */
  function LastColon(uri: string, pos: nat): (r: Option<nat>)
    requires pos <= |uri|
    ensures r.Some? ==> (12 <= r.value < pos && uri[r.value] == ':'
      && forall j | r.value < j < pos :: uri[j] != ':')
    ensures r.None? ==> forall j | 12 <= j < pos :: uri[j] != ':'
  {
    if pos <= 12 then None
    else if uri[pos - 1] == ':' then Some(pos - 1)
    else LastColon(uri, pos - 1)
  }

  /** The leading decimal digits of `s`. */
  function Digits(s: string): (r: string)
    ensures r <= s && forall i | 0 <= i < |r| :: '0' <= r[i] <= '9'
    ensures |r| < |s| ==> !('0' <= s[|r|] <= '9')
  {
    if |s| == 0 || !('0' <= s[0] <= '9') then [] else [s[0]] + Digits(s[1..])
  }

  /** `strtol(s, &end, 10)`: leading white space, an optional sign, then as many decimal digits as follow; 0 when there are none. */
  function Strtol(s: string): int
    decreases |s|
  {
    if |s| > 0 && IsSpace(s[0]) then Strtol(s[1..])
    else if |s| > 0 && s[0] == '-' then -(DecimalValue(Digits(s[1..])) as int)
    else if |s| > 0 && s[0] == '+' then DecimalValue(Digits(s[1..]))
    else DecimalValue(Digits(s))
  }

  /** Host and port of a calvinip URI. */
  datatype Endpoint = Endpoint(ip: string, port: int)

  /** What `cc_transport_spritzer_parse_uri` finds: the host runs from after the scheme to the last ':', the port is the number after it. */
  function ParsedUri(uri: string): Option<Endpoint>
  {
    if !StrNEq(uri, Scheme, 11) then None
    else match LastColon(uri, |uri|)
      case None => None
      case Some(p) => Some(Endpoint(uri[11..p], Strtol(uri[p + 1..])))
  }

  /** `cc_transport_spritzer_parse_uri`: scans down from the end of the URI for a ':'. */
  method ParseUri(uri: string) returns (r: Option<Endpoint>)
    ensures r == ParsedUri(uri)
  {
    if !StrNEq(uri, Scheme, 11) {
      return None;
    }
    // `uri[strlen(uri)]` is the terminating NUL, never ':'.
    var pos: nat := |uri|;
    while pos > 11
      invariant pos <= |uri|
      invariant forall j | pos < j < |uri| :: uri[j] != ':'
    {
      if pos < |uri| && uri[pos] == ':' {
        LastColonAt(uri, |uri|, pos);
        return Some(Endpoint(uri[11..pos], Strtol(uri[pos + 1..])));
      }
      pos := pos - 1;
    }
    return None;
  }

  /** A port number written after the last ':' reads back as itself. */
  lemma StrtolDecimal(n: nat, rest: string)
    requires rest == [] || !('0' <= rest[0] <= '9')
    ensures Strtol(Decimal(n) + rest) == n
  {
    DigitsOfDecimal(Decimal(n), rest);
    DecimalRoundTrip(n);
  }

  lemma {:induction false} DigitsOfDecimal(d: string, rest: string)
    requires forall i | 0 <= i < |d| :: '0' <= d[i] <= '9'
    requires rest == [] || !('0' <= rest[0] <= '9')
    ensures Digits(d + rest) == d
  {
    if |d| > 0 {
      assert (d + rest)[1..] == d[1..] + rest;
      DigitsOfDecimal(d[1..], rest);
    }
  }

  /** A URI built from a non-empty host and a port parses back into them, whatever ':'s the host holds. */
  lemma ParsedUriRoundTrip(host: string, port: nat)
    requires |host| > 0
    ensures ParsedUri(Scheme + host + ":" + Decimal(port)) == Some(Endpoint(host, port))
  {
    var uri := Scheme + host + ":" + Decimal(port);
    var p := 11 + |host|;
    assert uri[p] == ':';
    assert uri[p + 1..] == Decimal(port);
    assert forall j | p < j < |uri| :: uri[j] != ':' by {
      forall j | p < j < |uri| ensures uri[j] != ':' {
        assert uri[j] == Decimal(port)[j - p - 1];
      }
    }
    LastColonAt(uri, |uri|, p);
    assert uri[11..p] == host;
    assert Decimal(port) + [] == Decimal(port);
    StrtolDecimal(port, []);
  }

  lemma {:induction false} LastColonAt(uri: string, pos: nat, p: nat)
    requires 12 <= p < pos <= |uri| && uri[p] == ':'
    requires forall j | p < j < pos :: uri[j] != ':'
    ensures LastColon(uri, pos) == Some(p)
    decreases pos
  {
    if pos - 1 != p {
      LastColonAt(uri, pos - 1, p);
    }
  }

  /** A ':' right after the scheme is not found: an empty host fails. */
  lemma EmptyHostFails(port: nat)
    ensures ParsedUri(Scheme + ":" + Decimal(port)) == None
  {
    var uri := Scheme + ":" + Decimal(port);
    forall j | 12 <= j < |uri| ensures uri[j] != ':' {
      assert uri[j] == Decimal(port)[j - 12];
    }
  }

  /** The fields `cc_transport_spritzer_create` sets on the client and on its own state. */
  datatype SpritzerClient = SpritzerClient(
    uri: string, prefixLen: nat, rxBuffered: nat, ip: string, port: int)

  /**
   * `cc_transport_spritzer_create`: `allocOk` is whether both allocations
   * succeed. The client keeps the first 50 characters of the URI, the host
   * (a NUL-terminated copy) and the port; a URI that does not parse frees
   * everything and gives NULL.
   */
  function Create(uri: string, allocOk: bool): (r: Option<SpritzerClient>)
    ensures r.Some? <==> allocOk && ParsedUri(uri).Some?
    ensures r.Some? ==> r.value.ip == ParsedUri(uri).value.ip && r.value.port == ParsedUri(uri).value.port
    ensures r.Some? ==> r.value.uri <= uri && r.value.rxBuffered == 0 && r.value.prefixLen == LenPrefixSize
  {
    if !allocOk then None
    else match ParsedUri(uri)
      case None => None
      case Some(e) => Some(SpritzerClient(Prefix(uri, MaxUriLen), LenPrefixSize, 0, e.ip, e.port))
  }
}
