/**
 * The slice of tiny_http's request/response vocabulary that the chat server
 * touches: headers as (field, value) pairs, request methods, requests and the
 * responses the server builds, and the first-match header lookup that the
 * server performs with `headers().iter().find(..)`.
 */
module Http {
  import opened Wrappers

  /** One header as tiny_http stores it: a field name and a value. */
  datatype Header = Header(field: string, value: string)

  /** The request methods tiny_http distinguishes. */
  datatype Method =
    | Get | Head | Post | Put | Delete | Connect | Options | Trace | Patch
    | NonStandard(name: string)

  /** What the server reads of a request: method (`verb`), URL, headers in arrival order, body text. */
  datatype Request = Request(verb: Method, url: string, headers: seq<Header>, body: string)

  /** A response as the server builds it: status code, the headers it attaches, body text. */
  datatype Response = Response(status: int, headers: seq<Header>, body: string)

  /** ASCII lower-casing of one character; every other character is left alone. */
  function AsciiLower(c: char): char
  {
    if 'A' <= c <= 'Z' then (c as int + 32) as char else c
  }

  /**
   * tiny_http's `HeaderField::equiv`: two field names match when they are
   * equal up to ASCII case. This is the assumed behaviour of a library call.
   */
  predicate FieldEquiv(field: string, name: string)
  {
    |field| == |name| && forall k :: 0 <= k < |field| ==> AsciiLower(field[k]) == AsciiLower(name[k])
  }

  /** Some header of the list has a field matching `name`. */
  predicate Mentions(headers: seq<Header>, name: string)
  {
    exists k :: 0 <= k < |headers| && FieldEquiv(headers[k].field, name)
  }

  /** Index `i` holds the first header whose field matches `name`. */
  predicate IsFirstMatch(headers: seq<Header>, name: string, i: int)
  {
    0 <= i < |headers| && FieldEquiv(headers[i].field, name) &&
    forall k :: 0 <= k < i ==> !FieldEquiv(headers[k].field, name)
  }

  /** `Iterator::find` over the header list, reporting the position it stops at. */
  function FirstMatch(headers: seq<Header>, name: string): (r: Option<nat>)
    ensures r.Some? ==> IsFirstMatch(headers, name, r.value)
    ensures r.None? ==> !Mentions(headers, name)
  {
    if |headers| == 0 then None
    else if FieldEquiv(headers[0].field, name) then Some(0)
    else
      match FirstMatch(headers[1..], name)
      case None =>
        assert forall k :: 1 <= k < |headers| ==> headers[k] == headers[1..][k - 1];
        None
      case Some(i) =>
        assert forall k :: 1 <= k <= i ==> headers[k] == headers[1..][k - 1];
        Some(i + 1)
  }

  /** The header that `find(|h| h.field.equiv(name))` yields. */
  function FindHeader(headers: seq<Header>, name: string): (r: Option<Header>)
    ensures r.None? <==> !Mentions(headers, name)
    ensures r.Some? ==> exists i :: IsFirstMatch(headers, name, i) && r.value == headers[i]
  {
    match FirstMatch(headers, name)
    case None => None
    case Some(i) => Some(headers[i])
  }

  /** The lookup returns exactly the header at the first matching position. */
  lemma FindHeaderAt(headers: seq<Header>, name: string, i: int)
    requires IsFirstMatch(headers, name, i)
    ensures FindHeader(headers, name) == Some(headers[i])
  {
  }

  /**
   * Headers after the first match are never consulted: appending any headers
   * to a list that already contains a match leaves the lookup unchanged.
   */
  lemma {:induction false} LaterHeadersIgnored(prefix: seq<Header>, rest: seq<Header>, name: string)
    requires Mentions(prefix, name)
    ensures FindHeader(prefix + rest, name) == FindHeader(prefix, name)
  {
    var r := FirstMatch(prefix, name);
    var i := r.value;
    assert IsFirstMatch(prefix + rest, name, i) by {
      assert forall k :: 0 <= k <= i ==> (prefix + rest)[k] == prefix[k];
    }
    FindHeaderAt(prefix + rest, name, i);
    FindHeaderAt(prefix, name, i);
  }
}
