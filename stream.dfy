/** The HTTP streaming transport's text (test/server.js:265-322): the padding
    preamble written when the response opens, and the framing of every sent
    message in the event-stream format of the HTML standard ("Server-sent
    events", section "Parsing an event stream"), together with an interpreter
    of that format for the `data` field, against which the framing is proved
    to round-trip. */
module Stream {
  import opened Base

  /** `Array(2048).join(" ")` (test/server.js:267). */
  const Text2KB: string := Join(Holes(2048), " ")

  /** `Array(n)`: `n` empty slots, which `join` writes as empty strings. */
  function Holes(n: nat): seq<string>
  {
    seq(n, i => "")
  }

  function Spaces(n: nat): (r: string)
    ensures |r| == n && forall i :: 0 <= i < n ==> r[i] == ' '
  {
    seq(n, i => ' ')
  }

  /** Joining `n + 1` empty slots with a space gives `n` spaces. */
  lemma {:induction false} JoinHoles(n: nat)
    ensures Join(Holes(n + 1), " ") == Spaces(n)
  {
    if n > 0 {
      JoinHoles(n - 1);
      assert Holes(n + 1)[0] == "" && Holes(n + 1)[1..] == Holes(n);
      assert Spaces(n) == " " + Spaces(n - 1);
    }
  }

  /** The padding text is 2047 spaces. */
  lemma Text2KBSpaces()
    ensures Text2KB == Spaces(2047)
  {
    JoinHoles(2047);
  }

  predicate IsLineTerminator(c: char)
  {
    c == '\n' || c == '\r' || c as int == 0x2028 || c as int == 0x2029
  }

  /** `/Android [23]./` matches at position `i`: the literal, a 2 or a 3, then
      any character that is not a line terminator. */
  predicate AndroidAt(ua: string, i: nat)
  {
    i + 10 <= |ua| && ua[i..i + 8] == "Android " && (ua[i + 8] == '2' || ua[i + 8] == '3')
    && !IsLineTerminator(ua[i + 9])
  }

  function AndroidFrom(ua: string, i: nat): bool
    decreases |ua| - i
  {
    if i + 10 > |ua| then false else AndroidAt(ua, i) || AndroidFrom(ua, i + 1)
  }

  /** `/Android [23]./.test(req.headers["user-agent"])` (test/server.js:268);
      an absent header is tested as the text "undefined", which never matches. */
  function IsAndroidLowerThan3(userAgent: Option<string>): bool
  {
    userAgent.Some? && AndroidFrom(userAgent.value, 0)
  }

  lemma {:induction false} AndroidFromMeaning(ua: string, i: nat)
    ensures AndroidFrom(ua, i) <==> exists k :: i <= k && AndroidAt(ua, k)
    decreases |ua| - i
  {
    if i + 10 <= |ua| {
      AndroidFromMeaning(ua, i + 1);
    } else {
      assert forall k :: i <= k ==> !AndroidAt(ua, k);
    }
  }

  /** The regular expression matches somewhere in the user agent. */
  lemma AndroidMeaning(userAgent: Option<string>)
    ensures IsAndroidLowerThan3(userAgent)
        <==> userAgent.Some? && exists k :: AndroidAt(userAgent.value, k)
  {
    if userAgent.Some? {
      AndroidFromMeaning(userAgent.value, 0);
    }
  }

  /** What the response carries first (test/server.js:287). */
  function Preamble(android: bool): (r: string)
    ensures |r| >= 1 && r[|r| - 1] == '\n'
  {
    (if android then Text2KB else "") + Text2KB + "\n"
  }

  /** The preamble is one line of white space: 2047 spaces, 4094 for Android 2
      and 3, then a line feed. */
  lemma PreambleShape(android: bool)
    ensures |Preamble(android)| == if android then 4095 else 2048
    ensures forall i :: 0 <= i < |Preamble(android)| - 1 ==> Preamble(android)[i] == ' '
    ensures Preamble(android)[|Preamble(android)| - 1] == '\n'
  {
    Text2KBSpaces();
  }

  // ----- line splitting --------------------------------------------------

  predicate IsBreak(c: char)
  {
    c == '\r' || c == '\n'
  }

  predicate Plain(s: string)
  {
    forall i :: 0 <= i < |s| ==> !IsBreak(s[i])
  }

  /** `s.split(/\r\n|[\r\n]/)`: the pieces between line breaks, where a CR
      directly followed by LF is one break. */
  function SplitLines(s: string): (r: seq<string>)
    ensures |r| >= 1
    ensures forall i :: 0 <= i < |r| ==> Plain(r[i])
  {
    if s == [] then [""]
    else if s[0] == '\r' && |s| > 1 && s[1] == '\n' then [""] + SplitLines(s[2..])
    else if IsBreak(s[0]) then [""] + SplitLines(s[1..])
    else
      var rest := SplitLines(s[1..]);
      [[s[0]] + rest[0]] + rest[1..]
  }

  /** `s` with every CRLF, CR and LF written as one LF. */
  function Normalize(s: string): string
  {
    if s == [] then ""
    else if s[0] == '\r' && |s| > 1 && s[1] == '\n' then "\n" + Normalize(s[2..])
    else if IsBreak(s[0]) then "\n" + Normalize(s[1..])
    else [s[0]] + Normalize(s[1..])
  }

  lemma JoinCons(c: char, x: string, rest: seq<string>, sep: string)
    ensures Join([[c] + x] + rest, sep) == [c] + Join([x] + rest, sep)
  {
    if rest != [] {
      assert ([[c] + x] + rest)[1..] == rest == ([x] + rest)[1..];
    }
  }

  /** Joining the split lines with LF gives the text with its line breaks
      normalised to LF. */
  lemma {:induction false} JoinSplitLines(s: string)
    ensures Join(SplitLines(s), "\n") == Normalize(s)
  {
    if s == [] {
    } else if s[0] == '\r' && |s| > 1 && s[1] == '\n' {
      JoinSplitLines(s[2..]);
      assert ([""] + SplitLines(s[2..]))[1..] == SplitLines(s[2..]);
    } else if IsBreak(s[0]) {
      JoinSplitLines(s[1..]);
      assert ([""] + SplitLines(s[1..]))[1..] == SplitLines(s[1..]);
    } else {
      JoinSplitLines(s[1..]);
      var rest := SplitLines(s[1..]);
      assert rest == [rest[0]] + rest[1..];
      JoinCons(s[0], rest[0], rest[1..], "\n");
    }
  }

  lemma {:induction false} SplitPlainLine(x: string, t: string)
    requires Plain(x)
    ensures SplitLines(x + "\n" + t) == [x] + SplitLines(t)
  {
    if x == [] {
      assert x + "\n" + t == "\n" + t;
      assert ("\n" + t)[1..] == t;
    } else {
      var s := x + "\n" + t;
      assert s[1..] == x[1..] + "\n" + t;
      SplitPlainLine(x[1..], t);
      assert [x[0]] + x[1..] == x;
    }
  }

  // ----- framing ---------------------------------------------------------

  /** One `data: <line>\n` record line per line (test/server.js:306-309). */
  function DataLines(lines: seq<string>): string
  {
    if lines == [] then "" else "data: " + lines[0] + "\n" + DataLines(lines[1..])
  }

  /** The payload `transport.send(data)` writes (test/server.js:302-311). */
  function Frame(android: bool, data: string): string
  {
    (if android then Text2KB + Text2KB else "") + DataLines(SplitLines(data)) + "\n"
  }

  /** The Android padding is exactly the blank run in front of the record,
      and the record itself starts with its first field name. */
  lemma FramePadding(data: string)
    ensures |Frame(true, data)| == 4094 + |Frame(false, data)|
    ensures forall i :: 0 <= i < 4094 ==> Frame(true, data)[i] == ' '
    ensures Frame(true, data)[4094..] == Frame(false, data)
    ensures Frame(false, data)[0] == 'd'
  {
    Text2KBSpaces();
    var lines := SplitLines(data);
    assert lines == [lines[0]] + lines[1..];
    assert Frame(true, data) == Text2KB + Text2KB + Frame(false, data);
  }

  /** Several frames, in the order sent. */
  function Frames(messages: seq<string>): string
  {
    if messages == [] then "" else Frame(false, messages[0]) + Frames(messages[1..])
  }

  // ----- the event-stream format -----------------------------------------

  /** A line's field name and value: everything before the first colon, and
      after it with one leading space removed; a line without a colon is a
      field name with an empty value. */
  function FieldOf(line: string): (string, string)
  {
    var name := RunBefore(line, ':');
    if |name| == |line| then (line, "")
    else
      var v := line[|name| + 1..];
      (name, if |v| > 0 && v[0] == ' ' then v[1..] else v)
  }

  /** Processes complete lines with `buffer` the data buffer: a `data` field
      appends its value and a LF, a blank line dispatches the buffer (less
      its final LF) when it is not empty and then empties it, comment lines
      and other fields leave it alone. The result is the dispatched data. */
  function Interpret(lines: seq<string>, buffer: string): seq<string>
  {
    if lines == [] then []
    else if lines[0] == "" then
      (if buffer == "" then [] else [buffer[..|buffer| - 1]]) + Interpret(lines[1..], "")
    else if lines[0][0] == ':' then Interpret(lines[1..], buffer)
    else if FieldOf(lines[0]).0 == "data" then Interpret(lines[1..], buffer + FieldOf(lines[0]).1 + "\n")
    else Interpret(lines[1..], buffer)
  }

  /** The data of the events a client receives from `stream`; the text after
      the last line break is an unfinished line and is not processed. */
  function Events(stream: string): seq<string>
  {
    var lines := SplitLines(stream);
    Interpret(lines[..|lines| - 1], "")
  }

  function Prefixed(lines: seq<string>): seq<string>
  {
    if lines == [] then [] else ["data: " + lines[0]] + Prefixed(lines[1..])
  }

  function DataText(lines: seq<string>): string
  {
    if lines == [] then "" else lines[0] + "\n" + DataText(lines[1..])
  }

  predicate AllPlain(lines: seq<string>)
  {
    forall i :: 0 <= i < |lines| ==> Plain(lines[i])
  }

  lemma PlainDataLine(line: string)
    requires Plain(line)
    ensures Plain("data: " + line)
  {
    var x := "data: " + line;
    forall i | 0 <= i < |x| ensures !IsBreak(x[i]) {
      if i >= 6 {
        assert x[i] == line[i - 6];
      }
    }
  }

  lemma {:induction false} SplitDataLines(lines: seq<string>, t: string)
    requires AllPlain(lines)
    ensures SplitLines(DataLines(lines) + t) == Prefixed(lines) + SplitLines(t)
  {
    if lines != [] {
      var x := "data: " + lines[0];
      PlainDataLine(lines[0]);
      var rest := DataLines(lines[1..]);
      calc {
        SplitLines(DataLines(lines) + t);
        { assert DataLines(lines) + t == x + "\n" + (rest + t); }
        SplitLines(x + "\n" + (rest + t));
        { SplitPlainLine(x, rest + t); }
        [x] + SplitLines(rest + t);
        { SplitDataLines(lines[1..], t); }
        [x] + (Prefixed(lines[1..]) + SplitLines(t));
        ([x] + Prefixed(lines[1..])) + SplitLines(t);
      }
    } else {
      assert DataLines(lines) + t == t;
    }
  }

  lemma FieldOfData(v: string)
    ensures FieldOf("data: " + v) == ("data", v)
  {
    var line := "data: " + v;
    assert line == "data" + [':'] + (" " + v);
    RunBeforeDelimiter("data", ':', " " + v);
    assert line[5..] == " " + v;
  }

  lemma {:induction false} InterpretData(lines: seq<string>, rest: seq<string>, buffer: string)
    ensures Interpret(Prefixed(lines) + rest, buffer) == Interpret(rest, buffer + DataText(lines))
  {
    if lines != [] {
      var all := Prefixed(lines) + rest;
      assert all[0] == "data: " + lines[0];
      assert all[0] != "" && all[0][0] == 'd';
      assert all[1..] == Prefixed(lines[1..]) + rest;
      FieldOfData(lines[0]);
      assert Interpret(all, buffer) == Interpret(all[1..], buffer + lines[0] + "\n");
      InterpretData(lines[1..], rest, buffer + lines[0] + "\n");
      assert buffer + lines[0] + "\n" + DataText(lines[1..]) == buffer + DataText(lines);
    } else {
      assert Prefixed(lines) + rest == rest && buffer + DataText(lines) == buffer;
    }
  }

  lemma {:induction false} DataTextJoin(lines: seq<string>)
    requires lines != []
    ensures DataText(lines) == Join(lines, "\n") + "\n"
  {
    if |lines| > 1 {
      DataTextJoin(lines[1..]);
    }
  }

  /** A blank line dispatches the buffered data, without its final line feed. */
  lemma DispatchBlank(rest: seq<string>, text: string)
    requires text != ""
    ensures Interpret([""] + rest, text) == [text[..|text| - 1]] + Interpret(rest, "")
  {
    assert ([""] + rest)[1..] == rest;
  }

  /** A frame is one event whose data is the sent text, line breaks normalised. */
  lemma FrameDispatch(data: string, rest: seq<string>)
    ensures Interpret(Prefixed(SplitLines(data)) + [""] + rest, "")
         == [Normalize(data)] + Interpret(rest, "")
  {
    var lines := SplitLines(data);
    var text := DataText(lines);
    DataTextJoin(lines);
    JoinSplitLines(data);
    assert text != "" && text[..|text| - 1] == Normalize(data);
    assert Prefixed(lines) + [""] + rest == Prefixed(lines) + ([""] + rest);
    InterpretData(lines, [""] + rest, "");
    assert "" + text == text;
    DispatchBlank(rest, text);
  }

  function Blocks(messages: seq<string>): seq<string>
  {
    if messages == [] then [] else Prefixed(SplitLines(messages[0])) + [""] + Blocks(messages[1..])
  }

  lemma {:induction false} SplitFrames(messages: seq<string>)
    ensures SplitLines(Frames(messages)) == Blocks(messages) + [""]
  {
    if messages != [] {
      var lines := SplitLines(messages[0]);
      var rest := Frames(messages[1..]);
      assert Frames(messages) == DataLines(lines) + ("\n" + rest);
      SplitDataLines(lines, "\n" + rest);
      assert ("\n" + rest)[1..] == rest;
      assert SplitLines("\n" + rest) == [""] + SplitLines(rest);
      SplitFrames(messages[1..]);
    }
  }

  function NormalizeAll(messages: seq<string>): seq<string>
  {
    if messages == [] then [] else [Normalize(messages[0])] + NormalizeAll(messages[1..])
  }

  lemma {:induction false} InterpretBlocks(messages: seq<string>)
    ensures Interpret(Blocks(messages), "") == NormalizeAll(messages)
  {
    if messages != [] {
      FrameDispatch(messages[0], Blocks(messages[1..]));
      InterpretBlocks(messages[1..]);
    }
  }

  /** The response splits into the preamble line, the frames' lines and the
      empty text after the final line feed. */
  lemma StreamLines(messages: seq<string>)
    ensures SplitLines(Preamble(false) + Frames(messages)) == [Text2KB] + Blocks(messages) + [""]
  {
    Text2KBSpaces();
    assert Plain(Text2KB);
    assert Preamble(false) + Frames(messages) == Text2KB + "\n" + Frames(messages);
    SplitPlainLine(Text2KB, Frames(messages));
    SplitFrames(messages);
  }

  /** What a client reads from a streaming response: the preamble dispatches
      nothing, and each sent message arrives as one event, in order, with its
      line breaks normalised to LF. */
  lemma StreamRoundTrip(messages: seq<string>)
    ensures Events(Preamble(false) + Frames(messages)) == NormalizeAll(messages)
  {
    StreamLines(messages);
    var lines := [Text2KB] + Blocks(messages) + [""];
    assert lines[..|lines| - 1] == [Text2KB] + Blocks(messages);
    assert RunBefore(Text2KB, ':') == Text2KB by {
      Text2KBSpaces();
      assert ':' !in Text2KB;
    }
    assert ([Text2KB] + Blocks(messages))[1..] == Blocks(messages);
    InterpretBlocks(messages);
  }
}
