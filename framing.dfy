/**
 * How one line of the upstream event stream becomes (at most) one event for
 * the client: the `data: ` prefix, the `[DONE]` sentinel, and the choice
 * between passing a JSON payload through and wrapping raw text as
 * `{"ai_message": ...}`.
 */
module Framing {
  import opened Wrappers
  import opened JsStrings

  /**
   * One event written to the client as `data: <json>\n\n`. `Passthrough`
   * carries a payload that parsed as JSON and is re-serialised; `Wrapped`
   * carries text sent as `{"ai_message": <text>}`.
   */
  datatype Frame = Passthrough(payload: string) | Wrapped(payload: string)

  const DataPrefix: string := "data: "
  const DoneSentinel: string := "[DONE]"
  const StreamErrorMessage: string := "I apologize, but I encountered an error. Please try again."
  const HandlerErrorMessage: string := "I apologize, but I'm having trouble responding right now. Please try again."

  /** The text after `data: `, trimmed. */
  function Payload(line: string): string
    requires StartsWith(line, DataPrefix)
  {
    Trim(line[|DataPrefix|..])
  }

  /** Parse-or-wrap: a payload `JSON.parse` accepts passes through, any other is wrapped. */
  function Encode(data: string, isJson: string -> bool): Frame
  {
    if isJson(data) then Passthrough(data) else Wrapped(data)
  }

  /** The frame a complete line yields: skip blank lines, non-data lines, empty payloads and `[DONE]`. */
  function LineFrame(line: string, isJson: string -> bool): Option<Frame>
  {
    if Trim(line) == "" then
      None
    else if StartsWith(line, DataPrefix) then
      var data := Payload(line);
      if data == DoneSentinel || data == "" then None else Some(Encode(data, isJson))
    else
      None
  }

  /** The frame the leftover buffer yields at end of stream: no `[DONE]` or empty-payload skip. */
  function FlushFrame(rest: string, isJson: string -> bool): Option<Frame>
  {
    if Trim(rest) == "" then
      None
    else if StartsWith(rest, DataPrefix) then
      Some(Encode(Payload(rest), isJson))
    else
      None
  }

  /** The frames a run of complete lines yields, in order. */
  function LineFrames(lines: seq<string>, isJson: string -> bool): seq<Frame>
  {
    if lines == [] then [] else LineFrames(lines[..|lines| - 1], isJson) + ToSeq(LineFrame(lines[|lines| - 1], isJson))
  }

  lemma {:induction false} LineFramesAppend(a: seq<string>, b: seq<string>, isJson: string -> bool)
    ensures LineFrames(a + b, isJson) == LineFrames(a, isJson) + LineFrames(b, isJson)
    decreases |b|
  {
    if b == [] {
      assert a + b == a;
    } else {
      assert (a + b)[..|a + b| - 1] == a + b[..|b| - 1];
      LineFramesAppend(a, b[..|b| - 1], isJson);
    }
  }

  /** A line starting with `data: ` is never blank. */
  lemma DataLineNotBlank(line: string)
    requires StartsWith(line, DataPrefix)
    ensures Trim(line) != ""
  {
    TrimEmptyIffBlank(line);
    assert line[0] == 'd';
  }

  /**
   * A complete line yields a frame exactly when it starts with `data: ` and
   * its trimmed payload is neither empty nor `[DONE]`; the frame is then the
   * parse-or-wrap of that payload.
   */
  lemma LineFrameIff(line: string, isJson: string -> bool)
    ensures LineFrame(line, isJson).Some? <==>
      StartsWith(line, DataPrefix) && Payload(line) != "" && Payload(line) != DoneSentinel
    ensures LineFrame(line, isJson).Some? ==> LineFrame(line, isJson).value == Encode(Payload(line), isJson)
  {
    if StartsWith(line, DataPrefix) {
      DataLineNotBlank(line);
    }
  }

  /** The leftover buffer yields a frame exactly when it starts with `data: `, whatever its payload. */
  lemma FlushFrameIff(rest: string, isJson: string -> bool)
    ensures FlushFrame(rest, isJson).Some? <==> StartsWith(rest, DataPrefix)
    ensures FlushFrame(rest, isJson).Some? ==> FlushFrame(rest, isJson).value == Encode(Payload(rest), isJson)
  {
    if StartsWith(rest, DataPrefix) {
      DataLineNotBlank(rest);
    }
  }

  /** No frame produced from complete lines carries an empty or `[DONE]` payload. */
  lemma {:induction false} LineFramesPayloads(lines: seq<string>, isJson: string -> bool)
    ensures forall f :: f in LineFrames(lines, isJson) ==> f.payload != "" && f.payload != DoneSentinel
    decreases |lines|
  {
    if lines != [] {
      LineFramesPayloads(lines[..|lines| - 1], isJson);
    }
  }

  /**
   * A `data: [DONE]` line yields nothing when terminated by a newline, but
   * left unterminated at end of stream it is wrapped and sent.
   */
  lemma DoneOnlySkippedOnCompleteLines(line: string, isJson: string -> bool)
    requires StartsWith(line, DataPrefix) && Payload(line) == DoneSentinel
    requires !isJson(DoneSentinel)
    ensures LineFrame(line, isJson) == None
    ensures FlushFrame(line, isJson) == Some(Wrapped(DoneSentinel))
  {
    DataLineNotBlank(line);
  }
}
