/**
 * The alert text of display_error_message: a title, then the subtitle and the
 * message each on a line of its own when it is non-empty.
 */
module ErrorDisplay {

  /** A non-empty part on a new line; an empty part (Python's falsy value) adds nothing. */
  function OnNewLine(part: string): string {
    if part == "" then "" else "\n" + part
  }

  /** The text the alert shows. */
  function ErrorText(title: string, subtitle: string, message: string): string {
    title + OnNewLine(subtitle) + OnNewLine(message)
  }

  /** Builds the alert text step by step, as display_error_message does before handing it to the UI. */
  method DisplayErrorMessage(title: string, subtitle: string, message: string) returns (msg: string)
    ensures msg == ErrorText(title, subtitle, message)
  {
    msg := title;
    if subtitle != "" {
      msg := msg + "\n" + subtitle;
    }
    if message != "" {
      msg := msg + "\n" + message;
    }
  }

  predicate NoNewline(s: string) {
    forall i :: 0 <= i < |s| ==> s[i] != '\n'
  }

  /** The lines of a text: the pieces between newline characters. */
  function SplitLines(s: string): (lines: seq<string>)
    ensures |lines| >= 1
    decreases |s|
  {
    if s == [] then [""]
    else
      var rest := SplitLines(s[1..]);
      if s[0] == '\n' then [""] + rest
      else [[s[0]] + rest[0]] + rest[1..]
  }

  lemma {:induction false} SplitLinesSingle(a: string)
    requires NoNewline(a)
    ensures SplitLines(a) == [a]
    decreases |a|
  {
    if a != [] {
      SplitLinesSingle(a[1..]);
      assert [a[0]] + a[1..] == a;
    }
  }

  lemma {:induction false} SplitLinesAppend(a: string, b: string)
    requires NoNewline(a)
    ensures SplitLines(a + "\n" + b) == [a] + SplitLines(b)
    decreases |a|
  {
    if a == [] {
      assert a + "\n" + b == "\n" + b;
      assert ("\n" + b)[1..] == b;
    } else {
      var s := a + "\n" + b;
      assert s[1..] == a[1..] + "\n" + b;
      SplitLinesAppend(a[1..], b);
      assert [a[0]] + a[1..] == a;
    }
  }

  lemma TwoLines(a: string, b: string)
    requires NoNewline(a) && NoNewline(b)
    ensures SplitLines(a + "\n" + b) == [a, b]
  {
    SplitLinesAppend(a, b);
    SplitLinesSingle(b);
  }

  lemma ThreeLines(a: string, b: string, c: string)
    requires NoNewline(a) && NoNewline(b) && NoNewline(c)
    ensures SplitLines(a + "\n" + b + "\n" + c) == [a, b, c]
  {
    assert a + "\n" + b + "\n" + c == a + "\n" + (b + "\n" + c);
    SplitLinesAppend(a, b + "\n" + c);
    TwoLines(b, c);
  }

  /**
   * The alert shows the title on its first line, followed by exactly the
   * non-empty ones of subtitle and message, each on its own line.
   */
  lemma ErrorTextLines(title: string, subtitle: string, message: string)
    requires NoNewline(title) && NoNewline(subtitle) && NoNewline(message)
    ensures SplitLines(ErrorText(title, subtitle, message))
         == [title] + (if subtitle != "" then [subtitle] else []) + (if message != "" then [message] else [])
  {
    if subtitle == "" && message == "" {
      assert ErrorText(title, subtitle, message) == title;
      SplitLinesSingle(title);
    } else if subtitle == "" {
      assert ErrorText(title, subtitle, message) == title + "\n" + message;
      TwoLines(title, message);
    } else if message == "" {
      assert ErrorText(title, subtitle, message) == title + "\n" + subtitle;
      TwoLines(title, subtitle);
    } else {
      assert ErrorText(title, subtitle, message) == title + "\n" + subtitle + "\n" + message;
      ThreeLines(title, subtitle, message);
    }
  }
}
