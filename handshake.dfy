/**
 * The WebSocket side of a GET request: the `Upgrade` check, the lookup of
 * the client's key, the accept-key derivation and the header list of the
 * "101 Switching Protocols" response, all as the server writes them.
 */
module Handshake {
  import opened Wrappers
  import opened Http

  const UpgradeField := "Upgrade"
  const WebsocketToken := "websocket"
  const KeyField := "Sec-WebSocket-Key"

  /** The fixed GUID that section 4.2.2 of RFC 6455 appends to the client's key. */
  const MagicGuid := "258EAFA5-E914-47DA-95CA-C5AB0DC85B11"

  /** The text that is hashed: the key's bytes followed by the GUID. */
  function AcceptInput(key: string): (r: string)
    ensures |MagicGuid| == 36 && |r| == |key| + |MagicGuid|
    ensures r[..|key|] == key && r[|key|..] == MagicGuid
  {
    key + MagicGuid
  }

  /** Distinct keys are hashed as distinct inputs. */
  lemma AcceptInputInjective(k1: string, k2: string)
    requires AcceptInput(k1) == AcceptInput(k2)
    ensures k1 == k2
  {
    assert |k1| == |k2|;
    assert k1 == AcceptInput(k1)[..|k1|];
  }

  /**
   * The accept value for a client key: the digest of the key followed by the
   * GUID. `digest` stands for base64 of SHA-1, which comes from libraries.
   */
  function ConvertKey(digest: string -> string, key: string): string
  {
    digest(AcceptInput(key))
  }

  /** The declarative reading of the upgrade check. */
  predicate UpgradeAccepted(headers: seq<Header>)
  {
    exists i :: 0 <= i < |headers| && IsFirstMatch(headers, UpgradeField, i) && headers[i].value == WebsocketToken
  }

  /** The first `Upgrade` header, provided its value is exactly "websocket". */
  function VerifyWebsocket(headers: seq<Header>): (r: Option<Header>)
    ensures r.Some? ==> FieldEquiv(r.value.field, UpgradeField) && r.value.value == WebsocketToken
  {
    match FindHeader(headers, UpgradeField)
    case None => None
    case Some(h) => if h.value == WebsocketToken then Some(h) else None
  }

  /**
   * The upgrade check succeeds exactly when the FIRST header named `Upgrade`
   * (in any ASCII case) has the value "websocket", compared case-sensitively.
   */
  lemma UpgradeAcceptedIff(headers: seq<Header>)
    ensures VerifyWebsocket(headers).Some? <==> UpgradeAccepted(headers)
  {
  }

  /** Once a list holds an `Upgrade` header, headers added after it change nothing. */
  lemma LaterUpgradeHeadersIgnored(prefix: seq<Header>, rest: seq<Header>)
    requires Mentions(prefix, UpgradeField)
    ensures VerifyWebsocket(prefix + rest) == VerifyWebsocket(prefix)
  {
    LaterHeadersIgnored(prefix, rest, UpgradeField);
  }

  /** The field name matches in any case; the value does not. */
  lemma UpgradeCaseRules()
    ensures VerifyWebsocket([Header("UPGRADE", "websocket")]).Some?
    ensures VerifyWebsocket([Header("upgrade", "WebSocket")]).None?
    ensures VerifyWebsocket([Header("Upgrade", "h2c"), Header("Upgrade", "websocket")]).None?
  {
    var h1 := [Header("UPGRADE", "websocket")];
    assert IsFirstMatch(h1, UpgradeField, 0);
    FindHeaderAt(h1, UpgradeField, 0);
    var h2 := [Header("upgrade", "WebSocket")];
    assert IsFirstMatch(h2, UpgradeField, 0);
    FindHeaderAt(h2, UpgradeField, 0);
    var h3 := [Header("Upgrade", "h2c"), Header("Upgrade", "websocket")];
    assert IsFirstMatch(h3, UpgradeField, 0);
    FindHeaderAt(h3, UpgradeField, 0);
  }

  /** The value of the first `Sec-WebSocket-Key` header, if any. */
  function SecKey(headers: seq<Header>): (r: Option<string>)
    ensures r.None? <==> !Mentions(headers, KeyField)
    ensures r.Some? ==> exists i :: IsFirstMatch(headers, KeyField, i) && r.value == headers[i].value
  {
    match FindHeader(headers, KeyField)
    case None => None
    case Some(h) => Some(h.value)
  }

  /** The headers of the "101 Switching Protocols" response, misspelt `Update` included. */
  function SwitchingHeaders(digest: string -> string, key: string): (r: seq<Header>)
    ensures |r| == 3
    ensures r[0] == Header("Update", "websocket") && r[1] == Header("Connection", "Upgrade")
    ensures r[2] == Header("Sec-WebSocket-Accept", digest(key + MagicGuid))
  {
    [Header("Update", WebsocketToken),
     Header("Connection", "Upgrade"),
     Header("Sec-WebSocket-Accept", ConvertKey(digest, key))]
  }

  /**
   * Because of the misspelt field name, the 101 response attaches no header
   * that matches `Upgrade`.
   */
  lemma SwitchingHeadersLackUpgrade(digest: string -> string, key: string)
    ensures !Mentions(SwitchingHeaders(digest, key), UpgradeField)
  {
  }

  /**
   * The response `start_websocket_connection` sends before the stream loop:
   * 400 when there is no key, otherwise 101 with the switching headers.
   */
  function StartResponse(digest: string -> string, headers: seq<Header>): (r: Response)
    ensures r.status == 101 || r.status == 400
    ensures r.status == 400 <==> !Mentions(headers, KeyField)
    ensures r.status == 400 ==> r == Response(400, [], "")
  {
    match SecKey(headers)
    case None => Response(400, [], "")
    case Some(k) => Response(101, SwitchingHeaders(digest, k), "")
  }

  /** With a key present the 101 response carries the accept value of the first key header. */
  lemma StartResponseAccepts(digest: string -> string, headers: seq<Header>, i: int)
    requires IsFirstMatch(headers, KeyField, i)
    ensures StartResponse(digest, headers) == Response(101, SwitchingHeaders(digest, headers[i].value), "")
    ensures StartResponse(digest, headers).headers[2].value == digest(headers[i].value + MagicGuid)
  {
  }
}
