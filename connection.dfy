/**
 * The per-connection loop that runs after the 101 response: read at most one
 * byte; after a byte, write the fixed "Hello" frame; on a read error, stop;
 * on a read of zero bytes (end of stream), panic.
 */
module Connection {
  import opened Frames

  /** What one `take(1).read_to_end` call returns. */
  datatype ReadResult =
    | Got(b: byte)  // Ok(1): one byte arrived; its value is never looked at
    | Eof           // Ok(0): the stream ended
    | Failed        // Err(_): the read failed

  /** How the loop stands once the given read results are used up. */
  datatype Ending =
    | Closed    // a read failed and the handler returned
    | Panicked  // a zero-byte read reached `panic!`
    | Waiting   // every read succeeded; the loop blocks on the next one

  /** The frames written, one per `write` call, and how the loop stands. */
  datatype Transcript = Transcript(frames: seq<seq<byte>>, ending: Ending)

  /** The behaviour of the loop on a sequence of read results. */
  function Session(results: seq<ReadResult>): (t: Transcript)
    ensures |t.frames| <= |results|
    ensures t.ending == Waiting <==> |t.frames| == |results|
  {
    if results == [] then Transcript([], Waiting)
    else
      match results[0]
      case Got(_) =>
        var rest := Session(results[1..]);
        Transcript([HelloFrame] + rest.frames, rest.ending)
      case Eof => Transcript([], Panicked)
      case Failed => Transcript([], Closed)
  }

  /** The number of leading successful reads. */
  function Served(results: seq<ReadResult>): (n: nat)
    ensures n <= |results|
    ensures forall k :: 0 <= k < n ==> results[k].Got?
    ensures n < |results| ==> !results[n].Got?
  {
    if results == [] || !results[0].Got? then 0 else 1 + Served(results[1..])
  }

  /** How the loop stands after `n` successful reads. */
  function EndingAfter(results: seq<ReadResult>, n: nat): Ending
    requires n <= |results|
  {
    if n == |results| then Waiting else if results[n].Eof? then Panicked else Closed
  }

  /**
   * Exactly one frame is written per successful read before the first
   * unsuccessful one, every frame is the Hello frame, and the first
   * unsuccessful read decides the ending: an error closes, end of stream panics.
   */
  lemma {:induction false} SessionShape(results: seq<ReadResult>)
    ensures |Session(results).frames| == Served(results)
    ensures forall k :: 0 <= k < |Session(results).frames| ==> Session(results).frames[k] == HelloFrame
    ensures Session(results).ending == EndingAfter(results, Served(results))
  {
    if results != [] && results[0].Got? {
      SessionShape(results[1..]);
    }
  }

  /** Two read results of the same kind, whatever byte they carry. */
  predicate SameKind(a: ReadResult, b: ReadResult)
  {
    a.Got? == b.Got? && a.Eof? == b.Eof?
  }

  /** The bytes read are ignored: only the kind of each read matters. */
  lemma {:induction false} SessionIgnoresBytes(r1: seq<ReadResult>, r2: seq<ReadResult>)
    requires |r1| == |r2|
    requires forall k :: 0 <= k < |r1| ==> SameKind(r1[k], r2[k])
    ensures Session(r1) == Session(r2)
  {
    if r1 != [] {
      assert SameKind(r1[0], r2[0]);
      if r1[0].Got? {
        assert forall k :: 0 <= k < |r1| - 1 ==> r1[1..][k] == r1[k + 1] && r2[1..][k] == r2[k + 1];
        SessionIgnoresBytes(r1[1..], r2[1..]);
      }
    }
  }

  /** Nothing is written after a failed read, and no later read is made. */
  lemma StopsAtFailure(prefix: seq<ReadResult>, rest: seq<ReadResult>)
    requires forall k :: 0 <= k < |prefix| ==> prefix[k].Got?
    ensures Session(prefix + [Failed] + rest) == Transcript(Session(prefix).frames, Closed)
  {
    var whole := prefix + [Failed] + rest;
    SessionShape(whole);
    SessionShape(prefix);
    assert forall k :: 0 <= k < |prefix| ==> whole[k] == prefix[k];
    assert whole[|prefix|] == Failed;
    assert Served(whole) == |prefix|;
    assert Served(prefix) == |prefix|;
    assert Session(whole).frames == Session(prefix).frames;
  }

  /** The `loop` of `start_websocket_connection`, driven by a finite sequence of read results. */
  method RunConnection(results: seq<ReadResult>) returns (frames: seq<seq<byte>>, ending: Ending)
    ensures Transcript(frames, ending) == Session(results)
    ensures |frames| == Served(results) && forall k :: 0 <= k < |frames| ==> frames[k] == HelloFrame
    ensures ending == EndingAfter(results, Served(results))
  {
    frames := [];
    var i := 0;
    while i < |results|
      invariant 0 <= i <= |results|
      invariant Session(results) == Transcript(frames + Session(results[i..]).frames, Session(results[i..]).ending)
    {
      match results[i] {
        case Got(_) =>
          assert results[i..][1..] == results[i + 1..];
          frames := frames + [HelloFrame];
          i := i + 1;
        case Eof =>
          ending := Panicked;
          SessionShape(results);
          return;
        case Failed =>
          ending := Closed;
          SessionShape(results);
          return;
      }
    }
    ending := Waiting;
    assert results[i..] == [];
    SessionShape(results);
  }
}
