/**
 * The line loop of generate_assistant_response: it reads a server-sent-event
 * body line by line, appends the text deltas of the chat-completions stream
 * to a buffer, reports error frames, and stops at "data: [DONE]" or at the
 * end of the body.
 *
 * The event-stream format (section 9.2 of the WHATWG HTML Living Standard)
 * is followed only in part: a line counts only when it starts with exactly
 * "data: ", the payload "[DONE]" ends the stream, and multi-line data is not
 * joined. Parsing a payload as JSON is left to a function `parse` that
 * classifies it as one of the Frame kinds below.
 */
module StreamDecoder {
  import opened Wrappers
  import opened ErrorDisplay

  const DataPrefix := "data: "
  const DoneSentinel := "[DONE]"
  const ErrorTitle := "**\U{274C} Error:**"
  const StreamingErrorTitle := "**\U{274C} Streaming Error:**"

  /** What evaluating a data payload yields, with the Python exceptions it can raise made explicit. */
  datatype Frame =
    | Malformed(detail: string)      // json.loads raised JSONDecodeError; `detail` is its text
    | MissingKey(key: string)        // a KeyError was raised; `key` is its text
    | Faulty(detail: string)         // any other exception, e.g. a payload or "error" that is not an object
    | ServerError(message: string)   // a non-null top-level "error"; "" when its "message" is missing, null or empty
    | NoChoices                      // no "error" and "choices" missing, null or empty
    | NoContent                      // choices[0].delta has no "content" key
    | Delta(content: Option<string>) // choices[0].delta.content; None when it is null

  /** What the UI is asked to show while the stream is read. */
  datatype Event =
    | Preview(text: string)          // the running reply, shown with a typing cursor
    | Alert(message: string)         // an error box

  /** The loop's variables: the reply so far, what was shown, and whether [DONE] was read. */
  datatype DecoderState = DecoderState(text: string, events: seq<Event>, done: bool)

  const Start := DecoderState("", [], false)

  predicate StartsWith(s: string, prefix: string) {
    |prefix| <= |s| && s[..|prefix|] == prefix
  }

  /** A line the loop looks at: non-empty and beginning with "data: ". All others are skipped. */
  predicate IsDataLine(line: string) {
    line != "" && StartsWith(line, DataPrefix)
  }

  function Payload(line: string): string
    requires IsDataLine(line)
  {
    line[|DataPrefix|..]
  }

  /** The text a delta frame adds to the reply: its content, or "" for a null content. */
  function Contribution(f: Frame): string {
    match f
    case Delta(Some(content)) => content
    case _ => ""
  }

  /** The error box a frame raises, if any. */
  function AlertFor(f: Frame): Option<string> {
    match f
    case Malformed(detail) => Some(ErrorText(StreamingErrorTitle, "", "JSON decode error: " + detail))
    case MissingKey(key) => Some(ErrorText(StreamingErrorTitle, "", "Missing key: " + key))
    case Faulty(detail) => Some(ErrorText(StreamingErrorTitle, "", detail))
    case ServerError(message) => Some(ErrorText(ErrorTitle, "", message))
    case _ => None
  }

  /** The error text a frame raises, as a sequence of zero or one texts. */
  function ReportOf(f: Frame): seq<string> {
    var alert := AlertFor(f);
    if alert.Some? then [alert.value] else []
  }

  /** One iteration of the loop. */
  function Step(s: DecoderState, line: string, parse: string -> Frame): DecoderState {
    if s.done || !IsDataLine(line) then s
    else if Payload(line) == DoneSentinel then s.(done := true)
    else
      var frame := parse(Payload(line));
      match frame
      case Delta(content) =>
        var text := s.text + Contribution(frame);
        s.(text := text, events := s.events + [Preview(text)])
      case NoChoices => s
      case NoContent => s
      case _ => s.(events := s.events + [Alert(AlertFor(frame).value)])
  }

  /** The loop run over `lines` from state `s`. */
  function Run(s: DecoderState, lines: seq<string>, parse: string -> Frame): DecoderState
    decreases |lines|
  {
    if lines == [] || s.done then s
    else Run(Step(s, lines[0], parse), lines[1..], parse)
  }

  /** The loop run over a whole body. */
  function Decode(lines: seq<string>, parse: string -> Frame): DecoderState {
    Run(Start, lines, parse)
  }

  /**
   * The loop of generate_assistant_response (without its rendering): it
   * returns the reply, the events shown, and whether [DONE] ended the loop.
   */
  method DecodeStream(lines: seq<string>, parse: string -> Frame) returns (text: string, events: seq<Event>, sawDone: bool)
    ensures DecoderState(text, events, sawDone) == Decode(lines, parse)
  {
    text, events, sawDone := "", [], false;
    var i := 0;
    while i < |lines|
      invariant 0 <= i <= |lines|
      invariant Run(DecoderState(text, events, false), lines[i..], parse) == Decode(lines, parse)
    {
      var line := lines[i];
      assert lines[i..][0] == line && lines[i..][1..] == lines[i + 1..];
      if line != "" {
        if |DataPrefix| <= |line| && line[..|DataPrefix|] == DataPrefix {
          var data := line[|DataPrefix|..];
          if data == DoneSentinel {
            sawDone := true;
            break;
          }
          var frame := parse(data);
          match frame {
            case Malformed(detail) =>
              var msg := DisplayErrorMessage(StreamingErrorTitle, "", "JSON decode error: " + detail);
              events := events + [Alert(msg)];
            case MissingKey(key) =>
              var msg := DisplayErrorMessage(StreamingErrorTitle, "", "Missing key: " + key);
              events := events + [Alert(msg)];
            case Faulty(detail) =>
              var msg := DisplayErrorMessage(StreamingErrorTitle, "", detail);
              events := events + [Alert(msg)];
            case ServerError(message) =>
              var msg := DisplayErrorMessage(ErrorTitle, "", message);
              events := events + [Alert(msg)];
            case NoChoices =>
            case NoContent =>
            case Delta(content) =>
              text := text + (if content.Some? then content.value else "");
              events := events + [Preview(text)];
          }
        }
      }
      i := i + 1;
    }
  }

  // ---------------------------------------------------------------------
  // Reference definitions: what the loop is meant to compute, stated over
  // the payloads of the data lines rather than step by step.
  // ---------------------------------------------------------------------

  /** The payloads of the data lines that come before the first [DONE]. */
  function Payloads(lines: seq<string>): seq<string>
    decreases |lines|
  {
    if lines == [] then []
    else if !IsDataLine(lines[0]) then Payloads(lines[1..])
    else if Payload(lines[0]) == DoneSentinel then []
    else [Payload(lines[0])] + Payloads(lines[1..])
  }

  /** The contents of the delta frames among `payloads`, concatenated in order. */
  function DeltaText(payloads: seq<string>, parse: string -> Frame): string
    decreases |payloads|
  {
    if payloads == [] then ""
    else Contribution(parse(payloads[0])) + DeltaText(payloads[1..], parse)
  }

  /** The error texts raised by the frames among `payloads`, in order. */
  function Reports(payloads: seq<string>, parse: string -> Frame): seq<string>
    decreases |payloads|
  {
    if payloads == [] then []
    else ReportOf(parse(payloads[0])) + Reports(payloads[1..], parse)
  }

  /** The error texts among the events, in order. */
  function Alerts(events: seq<Event>): seq<string>
    decreases |events|
  {
    if events == [] then []
    else
      var last := events[|events| - 1];
      Alerts(events[..|events| - 1]) + (if last.Alert? then [last.message] else [])
  }

  /** The lines the loop looks at. */
  function DataLines(lines: seq<string>): seq<string>
    decreases |lines|
  {
    if lines == [] then []
    else (if IsDataLine(lines[0]) then [lines[0]] else []) + DataLines(lines[1..])
  }

  /** Every preview shown is a prefix of `text`. */
  ghost predicate PreviewsPrefixOf(events: seq<Event>, text: string) {
    forall i :: 0 <= i < |events| && events[i].Preview? ==> events[i].text <= text
  }

  // ---------------------------------------------------------------------
  // Properties of the loop.
  // ---------------------------------------------------------------------

  lemma AlertsAppend(events: seq<Event>, e: Event)
    ensures Alerts(events + [e]) == Alerts(events) + (if e.Alert? then [e.message] else [])
  {
    assert (events + [e])[..|events|] == events;
  }

  /** Blank lines and lines without the "data: " prefix change nothing. */
  lemma {:induction false} RunSkipsOtherLines(s: DecoderState, lines: seq<string>, parse: string -> Frame)
    ensures Run(s, lines, parse) == Run(s, DataLines(lines), parse)
    decreases |lines|
  {
    if lines != [] && !s.done {
      RunSkipsOtherLines(Step(s, lines[0], parse), lines[1..], parse);
      if IsDataLine(lines[0]) {
        assert DataLines(lines) == [lines[0]] + DataLines(lines[1..]);
        assert DataLines(lines)[1..] == DataLines(lines[1..]);
      } else {
        assert DataLines(lines) == DataLines(lines[1..]);
      }
    }
  }

  lemma DecodeSkipsOtherLines(lines: seq<string>, parse: string -> Frame)
    ensures Decode(lines, parse) == Decode(DataLines(lines), parse)
  {
    RunSkipsOtherLines(Start, lines, parse);
  }

  /** Running over two pieces of a body is running over the first, then the second. */
  lemma {:induction false} RunConcat(s: DecoderState, a: seq<string>, b: seq<string>, parse: string -> Frame)
    ensures Run(s, a + b, parse) == Run(Run(s, a, parse), b, parse)
    decreases |a|
  {
    if a == [] {
      assert a + b == b;
    } else if s.done {
      RunDone(s, b, parse);
    } else {
      assert (a + b)[0] == a[0] && (a + b)[1..] == a[1..] + b;
      RunConcat(Step(s, a[0], parse), a[1..], b, parse);
    }
  }

  lemma RunDone(s: DecoderState, lines: seq<string>, parse: string -> Frame)
    requires s.done
    ensures Run(s, lines, parse) == s
  {
  }

  /**
   * Once "data: [DONE]" is read, no later line matters, and the reply is the
   * one the lines before it give, with or without the sentinel.
   */
  lemma DecodeStopsAtDone(before: seq<string>, after: seq<string>, parse: string -> Frame)
    ensures var stopped := Decode(before + [DataPrefix + DoneSentinel], parse);
      && Decode(before + [DataPrefix + DoneSentinel] + after, parse) == stopped
      && stopped.done
      && stopped.text == Decode(before, parse).text
      && stopped.events == Decode(before, parse).events
  {
    var done := DataPrefix + DoneSentinel;
    assert IsDataLine(done) && Payload(done) == DoneSentinel;
    RunConcat(Start, before, [done], parse);
    RunConcat(Start, before + [done], after, parse);
    var stopped := Run(Start, before + [done], parse);
    assert stopped.done;
    RunDone(stopped, after, parse);
  }

  /**
   * The reply is the in-order concatenation of the contents of the delta
   * frames before [DONE]; error frames, frames without choices and deltas
   * without content add nothing.
   */
  lemma {:induction false} RunText(s: DecoderState, lines: seq<string>, parse: string -> Frame)
    requires !s.done
    ensures Run(s, lines, parse).text == s.text + DeltaText(Payloads(lines), parse)
    decreases |lines|
  {
    if lines != [] {
      var next := Step(s, lines[0], parse);
      if !IsDataLine(lines[0]) {
        RunText(next, lines[1..], parse);
      } else if Payload(lines[0]) == DoneSentinel {
      } else {
        RunText(next, lines[1..], parse);
        assert next.text == s.text + Contribution(parse(Payload(lines[0])));
      }
    }
  }

  lemma DecodeText(lines: seq<string>, parse: string -> Frame)
    ensures Decode(lines, parse).text == DeltaText(Payloads(lines), parse)
  {
    RunText(Start, lines, parse);
  }

  lemma StepAlerts(s: DecoderState, line: string, parse: string -> Frame)
    requires !s.done && IsDataLine(line) && Payload(line) != DoneSentinel
    ensures Alerts(Step(s, line, parse).events) == Alerts(s.events) + ReportOf(parse(Payload(line)))
  {
    var frame := parse(Payload(line));
    var next := Step(s, line, parse);
    match frame {
      case Delta(_) => AlertsAppend(s.events, Preview(next.text));
      case NoChoices =>
      case NoContent =>
      case _ => AlertsAppend(s.events, Alert(AlertFor(frame).value));
    }
  }

  /**
   * Every error frame before [DONE] raises exactly one error box, in order,
   * and the loop goes on with the next line.
   */
  lemma {:induction false} RunAlerts(s: DecoderState, lines: seq<string>, parse: string -> Frame)
    requires !s.done
    ensures Alerts(Run(s, lines, parse).events) == Alerts(s.events) + Reports(Payloads(lines), parse)
    decreases |lines|
  {
    if lines != [] {
      var next := Step(s, lines[0], parse);
      if !IsDataLine(lines[0]) {
        RunAlerts(next, lines[1..], parse);
      } else if Payload(lines[0]) == DoneSentinel {
      } else {
        var payloads := Payloads(lines);
        assert payloads == [Payload(lines[0])] + Payloads(lines[1..]);
        assert payloads[1..] == Payloads(lines[1..]);
        StepAlerts(s, lines[0], parse);
        RunAlerts(next, lines[1..], parse);
        assert Reports(payloads, parse) == ReportOf(parse(payloads[0])) + Reports(payloads[1..], parse);
      }
    }
  }

  lemma DecodeAlerts(lines: seq<string>, parse: string -> Frame)
    ensures Alerts(Decode(lines, parse).events) == Reports(Payloads(lines), parse)
  {
    RunAlerts(Start, lines, parse);
  }

  /** The buffer only grows, and each preview shows a prefix of the final reply. */
  lemma {:induction false} RunPreviews(s: DecoderState, lines: seq<string>, parse: string -> Frame)
    requires PreviewsPrefixOf(s.events, s.text)
    ensures s.text <= Run(s, lines, parse).text
    ensures PreviewsPrefixOf(Run(s, lines, parse).events, Run(s, lines, parse).text)
    decreases |lines|
  {
    if lines != [] && !s.done {
      var next := Step(s, lines[0], parse);
      assert s.text <= next.text;
      assert PreviewsPrefixOf(next.events, next.text) by {
        forall i | 0 <= i < |next.events| && next.events[i].Preview?
          ensures next.events[i].text <= next.text
        {
          if i < |s.events| {
            assert next.events[i] == s.events[i];
          }
        }
      }
      RunPreviews(next, lines[1..], parse);
    }
  }

  lemma DecodePreviews(lines: seq<string>, parse: string -> Frame)
    ensures PreviewsPrefixOf(Decode(lines, parse).events, Decode(lines, parse).text)
  {
    RunPreviews(Start, lines, parse);
  }

  /**
   * One malformed frame between two deltas drops neither delta: the reply is
   * "AB" and exactly one decoding error is reported.
   */
  lemma MalformedFrameBetweenDeltas(detail: string)
    ensures var parse := (p: string) =>
          if p == "A" then Delta(Some("A")) else if p == "B" then Delta(Some("B")) else Malformed(detail);
      var lines := ["data: A", "data: not-json", "data: B", "data: [DONE]"];
      && Decode(lines, parse).text == "AB"
      && Alerts(Decode(lines, parse).events) == [ErrorText(StreamingErrorTitle, "", "JSON decode error: " + detail)]
  {
    var parse := (p: string) =>
      if p == "A" then Delta(Some("A")) else if p == "B" then Delta(Some("B")) else Malformed(detail);
    var lines := ["data: A", "data: not-json", "data: B", "data: [DONE]"];
    assert Payload(lines[0]) == "A" && Payload(lines[1]) == "not-json" && Payload(lines[2]) == "B";
    assert Payload(lines[3]) == DoneSentinel;
    assert Payloads(lines[3..]) == [];
    assert Payloads(lines[2..]) == ["B"];
    assert Payloads(lines[1..]) == ["not-json", "B"];
    assert Payloads(lines) == ["A", "not-json", "B"];
    var payloads := Payloads(lines);
    assert payloads[1..] == ["not-json", "B"] && payloads[1..][1..] == ["B"];
    assert parse("not-json") == Malformed(detail);
    assert Reports(["B"], parse) == [];
    assert Reports(payloads, parse) == Reports(payloads[1..], parse);
    DecodeText(lines, parse);
    DecodeAlerts(lines, parse);
  }
}
