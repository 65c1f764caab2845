/**
 * `handle_request`: how the chat server answers one HTTP request, and the
 * shared log of chat messages that a POST appends to.
 */
module Server {
  import opened Wrappers
  import opened Http
  import opened Handshake
  import opened Connection

  /** A chat message as the JSON body of a POST carries it. */
  datatype MessageSent = MessageSent(username: string, message: string)

  /** What the server does with a request. */
  datatype Outcome =
    | Reply(response: Response)                        // answer and finish
    | Append(entry: MessageSent, response: Response)   // push onto the log, then answer
    | SwitchProtocols(response: Response)              // send 101 and run the connection loop
    | Abort                                            // `unwrap` on a body that does not parse

  /** `pattern` occurs in `s` starting at position `i`. */
  predicate OccursAt(s: string, pattern: string, i: int)
  {
    0 <= i <= |s| - |pattern| && s[i..i + |pattern|] == pattern
  }

  /** Substring search, as `str::contains` does it. */
  predicate ContainsSubstring(s: string, pattern: string)
  {
    exists i :: 0 <= i <= |s| && OccursAt(s, pattern, i)
  }

  const MessagesPath := "/messages"

  /**
   * The GET path test is a substring test: the path is found after any
   * prefix and before any suffix, and a URL shorter than it never passes.
   */
  lemma MessagesPathAnywhere(pre: string, post: string, short: string)
    requires |short| < |MessagesPath|
    ensures ContainsSubstring(pre + MessagesPath + post, MessagesPath)
    ensures !ContainsSubstring(short, MessagesPath)
  {
    var url := pre + MessagesPath + post;
    assert url[|pre|..|pre| + |MessagesPath|] == MessagesPath;
    assert OccursAt(url, MessagesPath, |pre|);
  }

  /** The reply to OPTIONS: 200 with permissive CORS headers. */
  const CorsResponse := Response(200, [
    Header("Access-Control-Allow-Origin", "*"),
    Header("Access-Control-Allow-Methods", "POST, GET, OPTIONS"),
    Header("Access-Control-Allow-Headers", "Content-Type")], "Ok")

  /** The reply to a POST whose message was stored. */
  const CreatedResponse := Response(201, [
    Header("Access-Control-Allow-Origin", "*"),
    Header("Content-Type", "application/json")], "{\"message\": \"Success\"}")

  const NotAllowed := Response(405, [], "")

  /**
   * The decision `handle_request` takes. `parse` stands for serde's JSON
   * decoding of the body, `digest` for base64 of SHA-1.
   */
  function Classify(request: Request, parse: string -> Option<MessageSent>, digest: string -> string): (r: Outcome)
    ensures r.Reply? ==> r.response.status in {200, 400, 405}
    ensures r.Append? ==> r.response.status == 201
    ensures r.SwitchProtocols? ==> r.response.status == 101
  {
    match request.verb
    case Options => Reply(CorsResponse)
    case Post =>
      (match parse(request.body)
       case None => Abort
       case Some(m) => Append(m, CreatedResponse))
    case Get =>
      if ContainsSubstring(request.url, MessagesPath) then
        if VerifyWebsocket(request.headers).None? then Reply(NotAllowed)
        else
          var response := StartResponse(digest, request.headers);
          if response.status == 101 then SwitchProtocols(response) else Reply(response)
      else Reply(NotAllowed)
    case _ => Reply(NotAllowed)
  }

  /** OPTIONS always answers 200 with exactly the three CORS headers, whatever the URL. */
  lemma OptionsAnswersCors(request: Request, parse: string -> Option<MessageSent>, digest: string -> string)
    requires request.verb == Options
    ensures Classify(request, parse, digest) == Reply(CorsResponse)
    ensures CorsResponse.status == 200 && |CorsResponse.headers| == 3
  {
  }

  /**
   * A POST appends exactly the parsed message and answers 201, or aborts
   * when the body does not parse; the URL and headers are never consulted.
   */
  lemma PostAppendsOrAborts(request: Request, parse: string -> Option<MessageSent>, digest: string -> string,
                            url: string, headers: seq<Header>)
    requires request.verb == Post
    ensures parse(request.body).Some? ==>
      Classify(request, parse, digest) == Append(parse(request.body).value, CreatedResponse)
    ensures parse(request.body).None? ==> Classify(request, parse, digest) == Abort
    ensures Classify(request.(url := url, headers := headers), parse, digest) == Classify(request, parse, digest)
  {
  }

  /** A GET off the messages path, and every method but OPTIONS, POST and GET, get 405. */
  lemma NotAllowedCases(request: Request, parse: string -> Option<MessageSent>, digest: string -> string)
    requires (request.verb == Get && !ContainsSubstring(request.url, MessagesPath))
          || !(request.verb in {Options, Post, Get})
    ensures Classify(request, parse, digest) == Reply(NotAllowed)
  {
  }

  /**
   * The upgrade check comes before the key lookup: a failed check answers
   * 405 even without a key; a passed check without a key answers 400.
   */
  lemma UpgradeCheckedBeforeKey(request: Request, parse: string -> Option<MessageSent>, digest: string -> string)
    requires request.verb == Get && ContainsSubstring(request.url, MessagesPath)
    ensures !UpgradeAccepted(request.headers) ==> Classify(request, parse, digest) == Reply(NotAllowed)
    ensures UpgradeAccepted(request.headers) && !Mentions(request.headers, KeyField) ==>
      Classify(request, parse, digest) == Reply(Response(400, [], ""))
  {
    UpgradeAcceptedIff(request.headers);
  }

  /**
   * A complete handshake answers 101 with `Update: websocket`,
   * `Connection: Upgrade` and the accept value of the first key header, in that order.
   */
  lemma HandshakeSwitches(request: Request, parse: string -> Option<MessageSent>, digest: string -> string, i: int)
    requires request.verb == Get && ContainsSubstring(request.url, MessagesPath)
    requires UpgradeAccepted(request.headers)
    requires IsFirstMatch(request.headers, KeyField, i)
    ensures Classify(request, parse, digest) == SwitchProtocols(Response(101, [
      Header("Update", "websocket"),
      Header("Connection", "Upgrade"),
      Header("Sec-WebSocket-Accept", ConvertKey(digest, request.headers[i].value))], ""))
  {
    UpgradeAcceptedIff(request.headers);
    StartResponseAccepts(digest, request.headers, i);
  }

  /** When each kind of outcome happens, in both directions. */
  lemma OutcomeKinds(request: Request, parse: string -> Option<MessageSent>, digest: string -> string)
    ensures Classify(request, parse, digest).Append? <==> request.verb == Post && parse(request.body).Some?
    ensures Classify(request, parse, digest).Abort? <==> request.verb == Post && parse(request.body).None?
    ensures Classify(request, parse, digest).SwitchProtocols? <==>
      request.verb == Get && ContainsSubstring(request.url, MessagesPath) &&
      UpgradeAccepted(request.headers) && Mentions(request.headers, KeyField)
  {
    UpgradeAcceptedIff(request.headers);
  }

  /** The shared `Vec<MessageSent>`; every change is an append at the end. */
  class MessageLog {
    var entries: seq<MessageSent>

    constructor ()
      ensures entries == []
    {
      entries := [];
    }

    /** `vec.push(message_sent)`. */
    method Push(m: MessageSent)
      modifies this
      ensures entries == old(entries) + [m]
      ensures |entries| == |old(entries)| + 1 && entries[..|old(entries)|] == old(entries)
    {
      entries := entries + [m];
    }
  }

  /**
   * `handle_request` on one request: decide, append when the outcome says
   * so, and after a 101 run the connection loop over `results`.
   */
  method HandleRequest(log: MessageLog, request: Request, parse: string -> Option<MessageSent>,
                       digest: string -> string, results: seq<ReadResult>)
    returns (outcome: Outcome, connection: Option<Transcript>)
    modifies log
    ensures outcome == Classify(request, parse, digest)
    ensures log.entries == if outcome.Append? then old(log.entries) + [outcome.entry] else old(log.entries)
    ensures connection.Some? <==> outcome.SwitchProtocols?
    ensures connection.Some? ==> connection.value == Session(results)
  {
    outcome := Classify(request, parse, digest);
    connection := None;
    match outcome {
      case Append(m, _) =>
        log.Push(m);
      case SwitchProtocols(_) =>
        var frames, ending := RunConnection(results);
        connection := Some(Transcript(frames, ending));
      case _ =>
    }
  }
}
