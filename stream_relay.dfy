/**
 * The streaming relay: upstream text arrives in chunks, is accumulated in a
 * buffer, split on newlines, and every complete line is turned into at most
 * one frame for the client; the unterminated tail is carried over to the
 * next read, flushed at end of stream, and dropped (replaced by one apology
 * frame) when a read fails.
 */
module StreamRelay {
  import opened Wrappers
  import opened JsStrings
  import opened Framing

  /** How the upstream body's reads stop: `done`, or a thrown read error. */
  datatype Ending = Done | Fail

  /** The results of successive `reader.read()` calls: decoded chunks, then how reading stopped. */
  datatype UpstreamBody = UpstreamBody(chunks: seq<string>, ending: Ending)

  /** All chunk text, in order. */
  function Concat(chunks: seq<string>): string
  {
    if chunks == [] then "" else Concat(chunks[..|chunks| - 1]) + chunks[|chunks| - 1]
  }

  /**
   * The frames the client receives for a streamed body: the frames of every
   * complete line of the whole text, then either the flush of the unterminated
   * tail (`Done`) or the apology frame (`Fail`, the tail is dropped).
   */
  function RelayedFrames(body: UpstreamBody, isJson: string -> bool): seq<Frame>
  {
    var parts := Split(Concat(body.chunks));
    LineFrames(parts[..|parts| - 1], isJson) +
      match body.ending
      case Done => ToSeq(FlushFrame(parts[|parts| - 1], isJson))
      case Fail => [Wrapped(StreamErrorMessage)]
  }

  /** The per-request relay state: the carry-over buffer and what has been written to the client. */
  class Relay {
    const isJson: string -> bool
    var buffer: string
    var written: seq<Frame>
    var ended: bool
    ghost var received: string      // all chunk text read so far
    ghost var lines: seq<string>    // the complete lines processed so far

    /** The buffer holds exactly the text after the last newline received. */
    ghost predicate Valid()
      reads this
    {
      && '\n' !in buffer
      && (forall i :: 0 <= i < |lines| ==> '\n' !in lines[i])
      && Unlines(lines) + buffer == received
    }

    /** Still reading: the client has exactly the frames of the lines processed so far. */
    ghost predicate Streaming()
      reads this
    {
      Valid() && !ended && written == LineFrames(lines, isJson)
    }

    constructor (isJson: string -> bool)
      ensures this.isJson == isJson
      ensures Streaming()
      ensures buffer == "" && written == [] && received == "" && lines == []
    {
      this.isJson := isJson;
      buffer := "";
      written := [];
      ended := false;
      received := "";
      lines := [];
    }

    /** One successful read: append the text, process every complete line, keep the tail. */
    method Feed(chunk: string)
      requires Streaming()
      modifies this
      ensures Streaming()
      ensures received == old(received) + chunk
      ensures var parts := Split(old(buffer) + chunk);
        && lines == old(lines) + parts[..|parts| - 1]
        && buffer == parts[|parts| - 1]
        && written == old(written) + LineFrames(parts[..|parts| - 1], isJson)
    {
      var parts := Split(buffer + chunk);
      var complete := parts[..|parts| - 1];
      FeedKeepsText(lines, buffer, chunk);
      LineFramesAppend(lines, complete, isJson);
      lines := lines + complete;
      received := received + chunk;
      buffer := parts[|parts| - 1];
      WriteLines(complete);
    }

    /** The loop over the complete lines of one read: each yields at most one frame. */
    method WriteLines(complete: seq<string>)
      requires !ended
      modifies this`written
      ensures written == old(written) + LineFrames(complete, isJson)
    {
      for i := 0 to |complete|
        invariant written == old(written) + LineFrames(complete[..i], isJson)
      {
        assert complete[..i + 1][..i] == complete[..i];
        WriteLine(complete[i]);
      }
      assert complete[..|complete|] == complete;
    }

    /** One complete line: skip it, or write its payload passed through or wrapped. */
    method WriteLine(line: string)
      requires !ended
      modifies this`written
      ensures written == old(written) + ToSeq(LineFrame(line, isJson))
    {
      if Trim(line) == "" {
        return;
      }
      if StartsWith(line, DataPrefix) {
        var data := Trim(line[|DataPrefix|..]);
        if data == DoneSentinel || data == "" {
          return;
        }
        if isJson(data) {
          written := written + [Passthrough(data)];
        } else {
          written := written + [Wrapped(data)];
        }
      }
    }

    /** End of stream: flush a non-blank `data: ` leftover as one frame. */
    method Finish()
      requires Streaming()
      modifies this`written
      ensures written == old(written) + ToSeq(FlushFrame(buffer, isJson))
    {
      if Trim(buffer) != "" {
        if StartsWith(buffer, DataPrefix) {
          var data := Trim(buffer[|DataPrefix|..]);
          if isJson(data) {
            written := written + [Passthrough(data)];
          } else {
            written := written + [Wrapped(data)];
          }
        }
      }
    }

    /** A read failed: write the one apology frame. */
    method Fail()
      requires !ended
      modifies this`written
      ensures written == old(written) + [Wrapped(StreamErrorMessage)]
    {
      written := written + [Wrapped(StreamErrorMessage)];
    }

    /** `res.end()`: nothing more is written. */
    method End()
      modifies this`ended
      ensures ended
    {
      ended := true;
    }
  }

  /**
   * One read keeps the buffer invariant: the newly completed lines and the
   * new buffer re-join to the old buffer plus the chunk.
   */
  lemma FeedKeepsText(lines: seq<string>, buffer: string, chunk: string)
    requires forall i :: 0 <= i < |lines| ==> '\n' !in lines[i]
    ensures var parts := Split(buffer + chunk);
      var lines' := lines + parts[..|parts| - 1];
      && (forall i :: 0 <= i < |lines'| ==> '\n' !in lines'[i])
      && Unlines(lines') + parts[|parts| - 1] == Unlines(lines) + buffer + chunk
  {
    var parts := Split(buffer + chunk);
    var complete := parts[..|parts| - 1];
    var lines' := lines + complete;
    var u, uc, last := Unlines(lines), Unlines(complete), parts[|parts| - 1];
    assert Unlines(lines') == u + uc by {
      UnlinesAppend(lines, complete);
    }
    assert uc + last == buffer + chunk by {
      UnlinesSplit(buffer + chunk);
    }
    assert (u + uc) + last == u + (uc + last);
    forall i | 0 <= i < |lines'| ensures '\n' !in lines'[i] {
      if i >= |lines| {
        assert lines'[i] == parts[i - |lines|];
      }
    }
  }

  lemma ConcatSnoc(chunks: seq<string>, i: nat)
    requires i < |chunks|
    ensures Concat(chunks[..i + 1]) == Concat(chunks[..i]) + chunks[i]
  {
    assert chunks[..i + 1][..i] == chunks[..i];
  }

  /**
   * The read loop: feed every chunk, then flush on `done` or write the
   * apology on a failed read, and end the response. The client receives
   * exactly the frames `RelayedFrames` describes.
   */
  method Pump(body: UpstreamBody, isJson: string -> bool) returns (frames: seq<Frame>)
    ensures frames == RelayedFrames(body, isJson)
  {
    var relay := new Relay(isJson);
    var i := 0;
    while i < |body.chunks|
      invariant 0 <= i <= |body.chunks|
      invariant relay.isJson == isJson && relay.Streaming()
      invariant relay.received == Concat(body.chunks[..i])
      decreases |body.chunks| - i
    {
      ConcatSnoc(body.chunks, i);
      relay.Feed(body.chunks[i]);
      i := i + 1;
    }
    assert body.chunks[..i] == body.chunks;
    SplitUnlines(relay.lines, relay.buffer);
    match body.ending {
      case Done => relay.Finish();
      case Fail => relay.Fail();
    }
    relay.End();
    frames := relay.written;
  }

  /**
   * The relay state after any sequence of reads is determined by the text
   * received, not by where the reads split it: two states holding the same
   * text have the same processed lines and the same buffer.
   */
  lemma StateDeterminedByText(lines1: seq<string>, buffer1: string, lines2: seq<string>, buffer2: string)
    requires forall i :: 0 <= i < |lines1| ==> '\n' !in lines1[i]
    requires forall i :: 0 <= i < |lines2| ==> '\n' !in lines2[i]
    requires '\n' !in buffer1 && '\n' !in buffer2
    requires Unlines(lines1) + buffer1 == Unlines(lines2) + buffer2
    ensures lines1 == lines2 && buffer1 == buffer2
  {
    SplitUnlines(lines1, buffer1);
    SplitUnlines(lines2, buffer2);
    assert lines1 == (lines1 + [buffer1])[..|lines1|];
    assert lines2 == (lines2 + [buffer2])[..|lines2|];
  }

  /** Re-chunking the same text changes nothing the client receives. */
  lemma ChunkingIrrelevant(chunks1: seq<string>, chunks2: seq<string>, ending: Ending, isJson: string -> bool)
    requires Concat(chunks1) == Concat(chunks2)
    ensures RelayedFrames(UpstreamBody(chunks1, ending), isJson) == RelayedFrames(UpstreamBody(chunks2, ending), isJson)
  {
  }

  /**
   * A failed read ends the stream with the frames of the lines completed so
   * far followed by exactly one apology frame.
   */
  lemma FailEndsWithOneApology(chunks: seq<string>, isJson: string -> bool)
    ensures var frames := RelayedFrames(UpstreamBody(chunks, Fail), isJson);
      && |frames| >= 1
      && frames[|frames| - 1] == Wrapped(StreamErrorMessage)
      && frames[..|frames| - 1] == RelayedFrames(UpstreamBody(chunks, Done), isJson)[..|frames| - 1]
  {
    var parts := Split(Concat(chunks));
    var done := RelayedFrames(UpstreamBody(chunks, Done), isJson);
    var complete := LineFrames(parts[..|parts| - 1], isJson);
    assert done[..|complete|] == complete;
  }
}
