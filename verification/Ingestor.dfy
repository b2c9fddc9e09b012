/** Stream framing (cmd/ingestor/main.go): a source is read in chunks of any size and
    cut at "\r\n" as it arrives. The chunks never show in what is published. */
module Ingestor {
  import opened Text

  const CRLF := "\r\n"

  datatype Read = Data(bytes: string) | Failed | Cancelled

  /** What the reads deliver up to the first failure or cancellation. */
  function Stream(chunks: seq<Read>): string {
    if chunks == [] || !chunks[0].Data? then "" else chunks[0].bytes + Stream(chunks[1..])
  }

  /** Whether the reading ends in an error, rather than by cancellation. */
  predicate Fails(chunks: seq<Read>) {
    chunks != [] && if chunks[0].Data? then Fails(chunks[1..]) else chunks[0].Failed?
  }

  function Trimmed(pieces: seq<string>): seq<string> {
    if pieces == [] then []
    else
      var message := TrimSpace(Last(pieces));
      if message == "" then Trimmed(Front(pieces)) else Trimmed(Front(pieces)) + [message]
  }

  /** The messages of a stream: its complete lines, trimmed, the empty ones dropped. */
  function Lines(stream: string): seq<string> {
    Trimmed(Front(Split(stream, CRLF)))
  }

  function Remainder(stream: string): string {
    Last(Split(stream, CRLF))
  }

  /** Which attempts reach the broker is the broker's choice. */
  type Broker = nat -> bool

  function Delivered(attempts: seq<string>, accepts: Broker): seq<string> {
    if attempts == [] then []
    else if accepts(|attempts| - 1) then Delivered(Front(attempts), accepts) + [Last(attempts)]
    else Delivered(Front(attempts), accepts)
  }

  ghost predicate AcceptedAt(attempts: seq<string>, accepts: Broker, message: string, n: int) {
    0 <= n < |attempts| && accepts(n) && attempts[n] == message
  }

  /** The broker gets exactly the attempts it accepts, and all of them if it accepts all. */
  lemma {:induction false} DeliveredExactly(attempts: seq<string>, accepts: Broker)
    ensures forall m :: m in Delivered(attempts, accepts) <==> exists n :: AcceptedAt(attempts, accepts, m, n)
    ensures (forall n :: 0 <= n < |attempts| ==> accepts(n)) ==> Delivered(attempts, accepts) == attempts
  {
    if attempts == [] {
    } else {
      var front := Front(attempts);
      DeliveredExactly(front, accepts);
      forall m | m in Delivered(attempts, accepts) ensures exists n :: AcceptedAt(attempts, accepts, m, n) {
        if m in Delivered(front, accepts) {
          var n :| AcceptedAt(front, accepts, m, n);
          assert AcceptedAt(attempts, accepts, m, n);
        } else {
          assert AcceptedAt(attempts, accepts, m, |front|);
        }
      }
      forall m, n | AcceptedAt(attempts, accepts, m, n) ensures m in Delivered(attempts, accepts) {
        if n < |front| {
          assert AcceptedAt(front, accepts, m, n);
        }
      }
    }
  }

  class Client {
    const accepts: Broker
    var attempts: seq<string>
    var delivered: seq<string>

    ghost predicate Valid()
      reads this
    {
      delivered == Delivered(attempts, accepts)
    }

    constructor (accepts: Broker)
      ensures Valid() && attempts == [] && this.accepts == accepts
    {
      this.accepts := accepts;
      attempts, delivered := [], [];
    }

    method PublishSBSMessage(raw: string) returns (ok: bool)
      requires Valid()
      modifies this
      ensures Valid() && attempts == old(attempts) + [raw]
      ensures ok == accepts(|old(attempts)|)
    {
      ok := accepts(|attempts|);
      if ok { delivered := delivered + [raw]; }
      attempts := attempts + [raw];
    }
  }

  /** One connection: read until an error or shutdown. Every complete line is offered to the
      broker exactly once and in order, refusals notwithstanding; the unfinished rest of the
      stream stays in the buffer. */
  method ConnectAndIngest(chunks: seq<Read>, client: Client) returns (messageBuffer: string, failed: bool)
    requires client.Valid()
    modifies client
    ensures client.Valid()
    ensures client.attempts == old(client.attempts) + Lines(Stream(chunks))
    ensures forall n :: |old(client.attempts)| <= n < |client.attempts| ==> Clean(client.attempts[n])
    ensures messageBuffer == Remainder(Stream(chunks))
    ensures failed == Fails(chunks)
  {
    messageBuffer, failed := "", false;
    ghost var stream := "";
    var n := 0;
    while n < |chunks| && chunks[n].Data?
      invariant 0 <= n <= |chunks|
      invariant client.Valid()
      invariant Stream(chunks) == stream + Stream(chunks[n..])
      invariant Fails(chunks) == Fails(chunks[n..])
      invariant client.attempts == old(client.attempts) + Lines(stream)
      invariant messageBuffer == Remainder(stream)
    {
      ChunkArrives(old(client.attempts), stream, chunks[n].bytes);
      messageBuffer := Ingest(messageBuffer, chunks[n].bytes, client);
      StreamContinues(chunks, n, stream);
      stream := stream + chunks[n].bytes;
      n := n + 1;
    }
    failed := n < |chunks| && chunks[n].Failed?;
    StreamStops(chunks, n);
    assert stream + "" == stream;
    ghost var attempts := client.attempts;
    PublishedClean(old(client.attempts), Front(Split(stream, CRLF)), attempts);
  }

  lemma StreamContinues(chunks: seq<Read>, n: nat, stream: string)
    requires n < |chunks| && chunks[n].Data?
    ensures stream + Stream(chunks[n..]) == (stream + chunks[n].bytes) + Stream(chunks[n + 1..])
    ensures Fails(chunks[n..]) == Fails(chunks[n + 1..])
  {
    assert chunks[n..][1..] == chunks[n + 1..];
  }

  lemma StreamStops(chunks: seq<Read>, n: nat)
    requires n <= |chunks| && (n < |chunks| ==> !chunks[n].Data?)
    ensures Stream(chunks[n..]) == ""
    ensures Fails(chunks[n..]) == (n < |chunks| && chunks[n].Failed?)
  {
  }

  /** What happens to one chunk. */
  method Ingest(messageBuffer: string, chunk: string, client: Client) returns (rest: string)
    requires client.Valid()
    modifies client
    ensures client.Valid()
    ensures client.attempts == old(client.attempts) + Trimmed(Front(Split(messageBuffer + chunk, CRLF)))
    ensures rest == Last(Split(messageBuffer + chunk, CRLF))
  {
    var messages := Split(messageBuffer + chunk, CRLF);
    PublishAll(messages, client);
    rest := messages[|messages| - 1];
  }

  /** All pieces but the last, if there are several. */
  method PublishAll(messages: seq<string>, client: Client)
    requires |messages| >= 1 && client.Valid()
    modifies client
    ensures client.Valid() && client.attempts == old(client.attempts) + Trimmed(Front(messages))
  {
    if |messages| > 1 {
      var i := 0;
      while i < |messages| - 1
        invariant 0 <= i <= |messages| - 1
        invariant client.Valid() && client.attempts == old(client.attempts) + Trimmed(messages[..i])
      {
        var message := TrimSpace(messages[i]);
        if message != "" {
          var ok := client.PublishSBSMessage(message);
        }
        i := i + 1;
        assert Front(messages[..i]) == messages[..i - 1];
      }
    }
  }

  lemma {:induction false} TrimmedConcat(a: seq<string>, b: seq<string>)
    ensures Trimmed(a + b) == Trimmed(a) + Trimmed(b)
  {
    if b == [] {
      assert a + b == a;
    } else {
      TrimmedConcat(a, Front(b));
      assert Front(a + b) == a + Front(b);
    }
  }

  /** Splitting what was left over with the new chunk continues splitting the stream. */
  lemma ChunkArrives(before: seq<string>, stream: string, chunk: string)
    ensures var pieces := Split(Remainder(stream) + chunk, CRLF);
            && (before + Lines(stream)) + Trimmed(Front(pieces)) == before + Lines(stream + chunk)
            && Last(pieces) == Remainder(stream + chunk)
  {
    SplitResumes(stream, chunk, CRLF);
    TrimmedRest(before, Front(Split(stream, CRLF)), Split(Remainder(stream) + chunk, CRLF));
  }

  lemma TrimmedRest(before: seq<string>, done: seq<string>, pieces: seq<string>)
    requires |pieces| >= 1
    ensures (before + Trimmed(done)) + Trimmed(Front(pieces)) == before + Trimmed(Front(done + pieces))
    ensures Last(pieces) == Last(done + pieces)
  {
    assert Front(done + pieces) == done + Front(pieces);
    TrimmedConcat(done, Front(pieces));
  }

  /** Nothing is lost, invented or cut wrongly: the pieces and the buffer rejoin to the exact
      stream and none of them holds a line ending. */
  lemma FramingIsExact(stream: string)
    ensures var pieces := Split(stream, CRLF);
            && Join(Front(pieces) + [Remainder(stream)], "\r\n") == stream
            && (forall i :: 0 <= i < |pieces| ==> !Contains(pieces[i], "\r\n"))
            && !Contains(Remainder(stream), "\r\n")
  {
    JoinSplit(stream, CRLF);
    SplitPiecesFree(stream, CRLF);
    assert Front(Split(stream, CRLF)) + [Remainder(stream)] == Split(stream, CRLF);
  }

  /** Something that neither begins nor ends with white space. */
  predicate Clean(message: string) {
    message != "" && !Blank(message[0]) && !Blank(Last(message))
  }

  lemma PublishedClean(before: seq<string>, pieces: seq<string>, attempts: seq<string>)
    requires attempts == before + Trimmed(pieces)
    ensures forall n :: |before| <= n < |attempts| ==> Clean(attempts[n])
  {
    PublishedTrimmed(pieces);
    forall n | |before| <= n < |attempts| ensures Clean(attempts[n]) {
      assert attempts[n] == Trimmed(pieces)[n - |before|];
    }
  }

  lemma {:induction false} PublishedTrimmed(pieces: seq<string>)
    ensures forall m :: m in Trimmed(pieces) ==> Clean(m)
  {
    if pieces == [] {
    } else {
      PublishedTrimmed(Front(pieces));
      var i, j := TrimSpaceIs(Last(pieces));
    }
  }

  // ---- A sender that frames messages is read back exactly

  function Framed(lines: seq<string>): string {
    if lines == [] then "" else lines[0] + "\r\n" + Framed(lines[1..])
  }

  /** The line is the message with white space before and after it; a blank line carries the
      empty message. */
  ghost predicate Carries(line: string, message: string) {
    exists i, j :: Cut(line, i, j) && line[i..j] == message
  }

  lemma {:induction false} CrlfCuttable(message: string)
    requires !Contains(message, CRLF)
    ensures Cuttable(message, CRLF)
  {
    var guarded := message + CRLF[..1];
    if message == "" {
    } else {
      UncutTail(message, CRLF);
      CrlfCuttable(message[1..]);
      assert guarded[1..] == message[1..] + CRLF[..1];
      assert guarded[1] == if |message| == 1 then '\r' else message[1];
    }
  }

  lemma {:induction false} FramedSplits(messages: seq<string>)
    requires forall m :: m in messages ==> !Contains(m, CRLF)
    ensures Split(Framed(messages), CRLF) == messages + [""]
  {
    if messages == [] {
    } else {
      FramedSplits(messages[1..]);
      CrlfCuttable(messages[0]);
      SplitFirst(messages[0], Framed(messages[1..]), CRLF);
      assert [messages[0]] + messages[1..] == messages;
    }
  }

  function NonEmpty(messages: seq<string>): seq<string> {
    if messages == [] then []
    else if Last(messages) == "" then NonEmpty(Front(messages))
    else NonEmpty(Front(messages)) + [Last(messages)]
  }

  lemma {:induction false} TrimmedCarried(lines: seq<string>, messages: seq<string>)
    requires |lines| == |messages| && forall n :: 0 <= n < |lines| ==> Carries(lines[n], messages[n])
    ensures Trimmed(lines) == NonEmpty(messages)
  {
    if lines == [] {
    } else {
      TrimmedCarried(Front(lines), Front(messages));
      assert Carries(lines[|lines| - 1], messages[|lines| - 1]);
      var i, j :| Cut(Last(lines), i, j) && Last(lines)[i..j] == Last(messages);
      CutTrims(Last(lines), i, j);
    }
  }

  /** The round trip: however the stream is cut into reads, the messages come out as they went in,
      without the white space around them and without the blank lines, and the buffer ends empty. */
  lemma IngestInvertsFraming(lines: seq<string>, messages: seq<string>, chunks: seq<Read>)
    requires |lines| == |messages| && forall n :: 0 <= n < |lines| ==> Carries(lines[n], messages[n])
    requires forall l :: l in lines ==> !Contains(l, "\r\n")
    requires Stream(chunks) == Framed(lines)
    ensures Lines(Stream(chunks)) == NonEmpty(messages) && Remainder(Stream(chunks)) == ""
  {
    FramedSplits(lines);
    TrimmedCarried(lines, messages);
    assert Front(lines + [""]) == lines;
  }

  /** In particular a message that is something, has no white space at its ends and no line ending
      in it comes back from its own line. */
  lemma CarriesItself(message: string, left: string, right: string)
    requires Clean(message)
    requires forall c :: c in left || c in right ==> Blank(c)
    ensures Carries(left + message + right, message)
  {
    PaddedCut(left, message, right);
    assert (left + message + right)[|left|..|left| + |message|] == message;
  }
}
