/**
 * Server-sent events: the frame printer and the chunk-fed parser (sections 9.2.5 and 9.2.6 of the WHATWG HTML
 * Standard).
 */
module ServerEvents {
  import opened Prelude
  import opened Numerals

  // ---- text

  /** The characters JavaScript's trim removes. */
  predicate IsSpace(c: char) {
    c in " \t\n\r" || c as int in {0x0b, 0x0c, 0xa0, 0x1680, 0x202f, 0x205f, 0x3000, 0xfeff, 0x2028, 0x2029}
      || 0x2000 <= c as int <= 0x200a
  }

  function Trim(s: string): string {
    if s != [] && IsSpace(s[0]) then Trim(s[1..]) else if s != [] && IsSpace(s[|s| - 1]) then Trim(s[..|s| - 1]) else s
  }

  predicate StartsWith(s: string, prefix: string) { |prefix| <= |s| && s[..|prefix|] == prefix }

  function Split(s: string): (lines: seq<string>)
    ensures lines != []
  {
    if s == [] then [[]] else
      var rest := Split(s[1..]);
      if s[0] == '\n' then [[]] + rest else [[s[0]] + rest[0]] + rest[1..]
  }

  function Join(lines: seq<string>): string {
    if lines == [] then [] else if |lines| == 1 then lines[0] else lines[0] + "\n" + Join(lines[1..])
  }

  function Concat(parts: seq<string>): string { if parts == [] then [] else parts[0] + Concat(parts[1..]) }

  // ---- the parser

  datatype SSEEvent = SSEEvent(event: string, data: string, id: Option<string>)

  datatype Fields = Fields(event: string, id: Option<string>, data: seq<string>)

  function TakeLine(f: Fields, line: string): Fields {
    if StartsWith(line, ":") then f
    else if StartsWith(line, "event:") then f.(event := Trim(line[6..]))
    else if StartsWith(line, "id:") then f.(id := Some(Trim(line[3..])))
    else if StartsWith(line, "data:") then f.(data := f.data + [Trim(line[5..])])
    else f
  }

  function TakeLines(f: Fields, lines: seq<string>): Fields
    decreases |lines|
  {
    if lines == [] then f else TakeLine(TakeLines(f, lines[..|lines| - 1]), lines[|lines| - 1])
  }

  /** A frame with no data, such as a heartbeat, gives no event. */
  function Parsed(f: Fields): seq<SSEEvent> {
    var data := Join(f.data);
    if data == "" then [] else [SSEEvent(f.event, data, f.id)]
  }

  function ParseFrame(frame: string): seq<SSEEvent> { Parsed(TakeLines(Fields("message", None, []), Split(frame))) }

  /** Where the first blank line starts. */
  function Blank(s: string): (at: Option<nat>)
    ensures at.Some? ==> at.value + 2 <= |s| && s[at.value..at.value + 2] == "\n\n"
  {
    if |s| < 2 then None else if s[0] == '\n' && s[1] == '\n' then Some(0) else
      var later := Blank(s[1..]);
      if later.None? then None else Some(later.value + 1)
  }

  /** The events of the complete frames, and what is left in the buffer. */
  function Drain(buf: string): (seq<SSEEvent>, string)
    decreases |buf|
  {
    var at := Blank(buf);
    if at.None? then ([], buf) else
      var (events, rest) := Drain(buf[at.value + 2..]);
      (ParseFrame(buf[..at.value]) + events, rest)
  }

  method ReadFrame(frame: string) returns (events: seq<SSEEvent>)
    ensures events == ParseFrame(frame)
  {
    var event: string, id: Option<string>, dataLines: seq<string> := "message", None, [];
    var lines := Split(frame);
    for i := 0 to |lines|
      invariant Fields(event, id, dataLines) == TakeLines(Fields("message", None, []), lines[..i])
    {
      var line := lines[i];
      assert lines[..i + 1][..i] == lines[..i];
      if StartsWith(line, ":") { continue; }
      if StartsWith(line, "event:") {
        event := Trim(line[6..]);
      } else if StartsWith(line, "id:") {
        id := Some(Trim(line[3..]));
      } else if StartsWith(line, "data:") {
        dataLines := dataLines + [Trim(line[5..])];
      }
    }
    assert lines[..|lines|] == lines;
    var data := Join(dataLines);
    events := if data != "" then [SSEEvent(event, data, id)] else [];
  }

  lemma {:induction false} BlankStays(a: string, b: string)
    ensures Blank(a).Some? ==> Blank(a + b) == Blank(a)
  {
    if |a| >= 2 && !(a[0] == '\n' && a[1] == '\n') {
      assert (a + b)[1..] == a[1..] + b;
      BlankStays(a[1..], b);
    }
  }

  /** Draining early changes nothing. */
  lemma {:induction false} DrainInSteps(a: string, b: string)
    ensures Drain(a + b) == (Drain(a).0 + Drain(Drain(a).1 + b).0, Drain(Drain(a).1 + b).1)
    decreases |a|
  {
    hide ParseFrame, Blank;
    var at := Blank(a);
    if at.None? {
      assert Drain(a) == ([], a);
      hide Drain;
      assert [] + Drain(a + b).0 == Drain(a + b).0;
    } else {
      BlankStays(a, b);
      var rest, frame := a[at.value + 2..], a[..at.value];
      assert (a + b)[..at.value] == frame && (a + b)[at.value + 2..] == rest + b;
      assert Drain(a + b) == (ParseFrame(frame) + Drain(rest + b).0, Drain(rest + b).1);
      assert Drain(a) == (ParseFrame(frame) + Drain(rest).0, Drain(rest).1);
      hide Drain;
      DrainInSteps(rest, b);
      var more := Drain(Drain(rest).1 + b).0;
      assert ParseFrame(frame) + (Drain(rest).0 + more) == ParseFrame(frame) + Drain(rest).0 + more;
    }
  }

  lemma {:induction false} ConcatSnoc(parts: seq<string>, part: string)
    ensures Concat(parts + [part]) == Concat(parts) + part
  {
    if parts == [] {
      assert [] + [part] == [part] && [part][1..] == [] && part + [] == part;
    } else {
      assert (parts + [part])[1..] == parts[1..] + [part];
      ConcatSnoc(parts[1..], part);
      assert parts[0] + (Concat(parts[1..]) + part) == parts[0] + Concat(parts[1..]) + part;
    }
  }

  /** However the text arrives in pieces, the events and the unread buffer are those of the whole text. */
  method ReadSSE(chunks: seq<string>) returns (events: seq<SSEEvent>, buf: string)
    ensures (events, buf) == Drain(Concat(chunks))
  {
    hide ParseFrame;
    events, buf := [], "";
    for i := 0 to |chunks|
      invariant (events, buf) == Drain(Concat(chunks[..i]))
    {
      assert chunks[..i + 1] == chunks[..i] + [chunks[i]];
      ConcatSnoc(chunks[..i], chunks[i]);
      DrainInSteps(Concat(chunks[..i]), chunks[i]);
      ghost var before := events;
      buf := buf + chunks[i];
      ghost var fed := buf;
      var at := Blank(buf);
      while at.Some?
        invariant at == Blank(buf)
        invariant before + Drain(fed).0 == events + Drain(buf).0 && Drain(fed).1 == Drain(buf).1
        decreases |buf|
      {
        var found := ReadFrame(buf[..at.value]);
        assert events + (found + Drain(buf[at.value + 2..]).0) == events + found + Drain(buf[at.value + 2..]).0;
        events := events + found;
        buf := buf[at.value + 2..];
        at := Blank(buf);
      }
      assert events + [] == events;
    }
    assert chunks[..|chunks|] == chunks;
  }

  // ---- the printer

  /** `data` is the text itself or its JSON; `retry` is the rounded delay. Empty ids and event names are not sent. */
  datatype SseEvent = SseEvent(event: string, data: string, id: string, retry: Option<nat>)

  /** A carriage return before a line feed belongs to the line break. */
  function WithoutCr(line: string): string {
    if line != [] && line[|line| - 1] == '\r' then line[..|line| - 1] else line
  }

  function DataLines(data: string): seq<string> {
    var lines := Split(data);
    seq(|lines|, i requires 0 <= i < |lines| => if i < |lines| - 1 then WithoutCr(lines[i]) else lines[i])
  }

  function Head(e: SseEvent): seq<string> {
    (if e.id != "" then ["id: " + e.id] else [])
    + (if e.event != "" && e.event != "message" then ["event: " + e.event] else [])
    + (if e.retry.Some? then ["retry: " + Digits(e.retry.value)] else [])
  }

  function Labelled(lines: seq<string>): seq<string> {
    seq(|lines|, i requires 0 <= i < |lines| => "data: " + lines[i])
  }

  function FrameLines(e: SseEvent): seq<string> { Head(e) + Labelled(DataLines(e.data)) }

  function Unlines(lines: seq<string>): string {
    if lines == [] then [] else Unlines(lines[..|lines| - 1]) + lines[|lines| - 1] + "\n"
  }

  function Frame(e: SseEvent): string { Unlines(FrameLines(e)) + "\n" }

  lemma UnlinesSnoc(sent: seq<string>, line: string)
    ensures Unlines(sent + [line]) == Unlines(sent) + line + "\n"
  {
    assert (sent + [line])[..|sent|] == sent;
  }

  method PrintHead(e: SseEvent) returns (out: string)
    ensures out == Unlines(Head(e))
  {
    hide Unlines, Digits;
    out := "";
    ghost var sent: seq<string> := [];
    assert out == Unlines(sent) by { NothingSent(); }
    if e.id != "" {
      UnlinesSnoc(sent, "id: " + e.id);
      out := out + ("id: " + e.id) + "\n";
      sent := sent + ["id: " + e.id];
    }
    if e.event != "" && e.event != "message" {
      UnlinesSnoc(sent, "event: " + e.event);
      out := out + ("event: " + e.event) + "\n";
      sent := sent + ["event: " + e.event];
    }
    if e.retry.Some? {
      UnlinesSnoc(sent, "retry: " + Digits(e.retry.value));
      out := out + ("retry: " + Digits(e.retry.value)) + "\n";
      sent := sent + ["retry: " + Digits(e.retry.value)];
    }
    assert sent == Head(e);
  }

  lemma NothingSent()
    ensures Unlines([]) == []
  {
  }

  method SseFrame(e: SseEvent) returns (out: string)
    ensures out == Frame(e)
  {
    hide Head, DataLines, Unlines;
    out := PrintHead(e);
    var lines := DataLines(e.data);
    assert Head(e) + Labelled(lines[..0]) == Head(e);
    for i := 0 to |lines|
      invariant out == Unlines(Head(e) + Labelled(lines[..i]))
    {
      var line := "data: " + lines[i];
      UnlinesSnoc(Head(e) + Labelled(lines[..i]), line);
      assert Labelled(lines[..i + 1]) == Labelled(lines[..i]) + [line];
      assert Head(e) + Labelled(lines[..i + 1]) == Head(e) + Labelled(lines[..i]) + [line];
      out := out + line + "\n";
    }
    assert lines[..|lines|] == lines;
    out := out + "\n";
  }

  // ---- round trip

  lemma {:induction false} UnlinesJoin(lines: seq<string>)
    requires lines != []
    ensures Unlines(lines) == Join(lines) + "\n"
  {
    var n := |lines| - 1;
    if n == 0 {
      assert lines == [] + [lines[0]];
      UnlinesSnoc([], lines[0]);
      assert [] + lines[0] == lines[0];
    } else {
      UnlinesJoin(lines[..n]);
      JoinSnoc(lines[..n], lines[n]);
      assert lines == lines[..n] + [lines[n]];
    }
  }

  lemma {:induction false} JoinSnoc(lines: seq<string>, line: string)
    requires lines != []
    ensures Join(lines + [line]) == Join(lines) + "\n" + line
  {
    if |lines| == 1 {
      assert (lines + [line])[1..] == [line];
    } else {
      assert (lines + [line])[1..] == lines[1..] + [line];
      JoinSnoc(lines[1..], line);
      assert lines[0] + "\n" + (Join(lines[1..]) + "\n" + line) == lines[0] + "\n" + Join(lines[1..]) + "\n" + line;
    }
  }

  lemma {:induction false} SplitOne(line: string)
    requires '\n' !in line
    ensures Split(line) == [line]
  {
    if line != [] {
      SplitOne(line[1..]);
      assert [line[0]] + line[1..] == line;
    }
  }

  lemma {:induction false} SplitFirst(line: string, more: string)
    requires '\n' !in line
    ensures Split(line + "\n" + more) == [line] + Split(more)
  {
    var s := line + "\n" + more;
    if line == [] {
      assert s[0] == '\n' && s[1..] == more;
    } else {
      assert s[1..] == line[1..] + "\n" + more;
      SplitFirst(line[1..], more);
      assert [line[0]] + line[1..] == line;
    }
  }

  lemma {:induction false} SplitJoin(lines: seq<string>)
    requires lines != [] && forall l | l in lines :: '\n' !in l
    ensures Split(Join(lines)) == lines
  {
    assert lines[0] in lines && forall l | l in lines[1..] :: l in lines;
    assert lines == [lines[0]] + lines[1..];
    if |lines| == 1 {
      assert Join(lines) == lines[0];
      hide Split, Join;
      SplitOne(lines[0]);
    } else {
      assert Join(lines) == lines[0] + "\n" + Join(lines[1..]);
      hide Split, Join;
      SplitJoin(lines[1..]);
      SplitFirst(lines[0], Join(lines[1..]));
    }
  }

  lemma {:induction false} BlankAfterLine(line: string, more: string)
    requires '\n' !in line && line != [] && more != [] && more[0] != '\n'
    ensures Blank(line + "\n" + more) == var at := Blank(more); if at.None? then None else Some(|line| + 1 + at.value)
  {
    var s := line + "\n" + more;
    if |line| == 1 {
      assert s[1..] == "\n" + more && s[1..][1..] == more;
    } else {
      assert s[1..] == line[1..] + "\n" + more;
      BlankAfterLine(line[1..], more);
    }
  }

  lemma {:induction false} BlankAtEnd(line: string, more: string)
    requires '\n' !in line
    ensures Blank(line + "\n\n" + more) == Some(|line|)
  {
    var s := line + "\n\n" + more;
    if line != [] {
      assert s[1..] == line[1..] + "\n\n" + more;
      BlankAtEnd(line[1..], more);
    }
  }

  lemma JoinStarts(lines: seq<string>)
    requires lines != [] && lines[0] != [] && '\n' !in lines[0]
    ensures Join(lines) != [] && Join(lines)[0] != '\n'
  {
    assert lines[0][0] in lines[0] && Join(lines)[0] == lines[0][0];
  }

  lemma Regroup(a: string, b: string, c: string, d: string)
    ensures a + b + c + d == a + (b + c + d)
  {
  }

  /** The first blank line of a frame of non-empty lines is its end. */
  lemma {:induction false} BlankEndsFrame(lines: seq<string>, more: string)
    requires lines != [] && forall l | l in lines :: l != [] && '\n' !in l
    ensures Blank(Join(lines) + "\n\n" + more) == Some(|Join(lines)|)
  {
    hide Blank;
    assert lines[0] in lines;
    if |lines| == 1 {
      BlankAtEnd(lines[0], more);
    } else {
      assert lines[1] in lines && forall l | l in lines[1..] :: l in lines;
      var body := Join(lines[1..]);
      var rest := body + "\n\n" + more;
      BlankEndsFrame(lines[1..], more);
      JoinStarts(lines[1..]);
      assert Join(lines) == lines[0] + "\n" + body;
      hide Join;
      Regroup(lines[0] + "\n", body, "\n\n", more);
      BlankAfterLine(lines[0], rest);
    }
  }

  lemma {:induction false} TakeMore(f: Fields, a: seq<string>, b: seq<string>)
    ensures TakeLines(f, a + b) == TakeLines(TakeLines(f, a), b)
    decreases |b|
  {
    hide TakeLine;
    if b == [] {
      assert a + b == a;
    } else {
      assert (a + b)[..|a + b| - 1] == a + b[..|b| - 1];
      TakeMore(f, a, b[..|b| - 1]);
    }
  }

  function Trimmed(lines: seq<string>): seq<string> { seq(|lines|, i requires 0 <= i < |lines| => Trim(lines[i])) }

  lemma TakeOne(f: Fields, line: string)
    ensures TakeLines(f, [line]) == TakeLine(f, line)
  {
    assert [line][..0] == [];
  }

  lemma Label(line: string, name: string, rest: string)
    requires line == name + rest
    ensures StartsWith(line, name) && line[|name|..] == rest
  {
  }

  lemma OtherLabel(line: string, name: string)
    requires line != [] && name != [] && line[0] != name[0]
    ensures !StartsWith(line, name)
  {
  }

  lemma SpaceTrims(text: string)
    ensures Trim(" " + text) == Trim(text)
  {
    assert (" " + text)[1..] == text;
  }

  lemma TakeDataLine(f: Fields, text: string)
    ensures TakeLine(f, "data: " + text) == f.(data := f.data + [Trim(text)])
  {
    var line := "data: " + text;
    assert line == "data:" + (" " + text) && line[0] == 'd';
    Label(line, "data:", " " + text);
    SpaceTrims(text);
    OtherLabel(line, ":");
    OtherLabel(line, "event:");
    OtherLabel(line, "id:");
    hide Trim, StartsWith;
  }

  lemma TakeIdLine(f: Fields, text: string)
    ensures TakeLine(f, "id: " + text) == f.(id := Some(Trim(text)))
  {
    var line := "id: " + text;
    assert line == "id:" + (" " + text) && line[0] == 'i';
    Label(line, "id:", " " + text);
    SpaceTrims(text);
    OtherLabel(line, ":");
    OtherLabel(line, "event:");
    hide Trim, StartsWith;
  }

  lemma TakeEventLine(f: Fields, text: string)
    ensures TakeLine(f, "event: " + text) == f.(event := Trim(text))
  {
    var line := "event: " + text;
    assert line == "event:" + (" " + text) && line[0] == 'e';
    Label(line, "event:", " " + text);
    SpaceTrims(text);
    OtherLabel(line, ":");
    hide Trim, StartsWith;
  }

  lemma TakeRetryLine(f: Fields, text: string)
    ensures TakeLine(f, "retry: " + text) == f
  {
    var line := "retry: " + text;
    assert line == "retry:" + (" " + text) && line[0] == 'r';
    Label(line, "retry:", " " + text);
    SpaceTrims(text);
    OtherLabel(line, ":");
    OtherLabel(line, "event:");
    OtherLabel(line, "id:");
    OtherLabel(line, "data:");
    hide Trim, StartsWith;
  }

  lemma {:induction false} TakeData(f: Fields, lines: seq<string>)
    ensures TakeLines(f, Labelled(lines)) == f.(data := f.data + Trimmed(lines))
  {
    hide TakeLine;
    if lines == [] {
      assert f.data + [] == f.data;
    } else {
      var n := |lines| - 1;
      TakeData(f, lines[..n]);
      assert Labelled(lines)[..n] == Labelled(lines[..n]);
      TakeDataLine(f.(data := f.data + Trimmed(lines[..n])), lines[n]);
      assert f.data + Trimmed(lines[..n]) + [Trim(lines[n])] == f.data + Trimmed(lines);
    }
  }

  /** What a reader makes of one frame whose name and id keep to their lines. */
  function Received(e: SseEvent): seq<SSEEvent> {
    Parsed(Fields(if e.event == "" || e.event == "message" then "message" else Trim(e.event),
                  if e.id == "" then None else Some(Trim(e.id)), Trimmed(DataLines(e.data))))
  }

  lemma TakeHead(e: SseEvent)
    ensures TakeLines(Fields("message", None, []), Head(e))
            == Fields(if e.event == "" || e.event == "message" then "message" else Trim(e.event),
                      if e.id == "" then None else Some(Trim(e.id)), [])
  {
    hide TakeLine, Trim;
    var a := if e.id != "" then ["id: " + e.id] else [];
    var b := if e.event != "" && e.event != "message" then ["event: " + e.event] else [];
    var c := if e.retry.Some? then ["retry: " + Digits(e.retry.value)] else [];
    var start := Fields("message", None, []);
    TakeMore(start, a + b, c);
    TakeMore(start, a, b);
    TakeIdLine(start, e.id);
    TakeEventLine(TakeLines(start, a), e.event);
    if e.id != "" { TakeOne(start, "id: " + e.id); }
    if b != [] { TakeOne(TakeLines(start, a), "event: " + e.event); }
    if e.retry.Some? {
      TakeRetryLine(TakeLines(start, a + b), Digits(e.retry.value));
      TakeOne(TakeLines(start, a + b), "retry: " + Digits(e.retry.value));
    }
  }

  lemma {:induction false} SplitHasNoBreaks(s: string)
    ensures forall l | l in Split(s) :: '\n' !in l
  {
    if s != [] {
      SplitHasNoBreaks(s[1..]);
      var rest := Split(s[1..]);
      assert rest[0] in rest && forall l | l in rest[1..] :: l in rest;
    }
  }

  lemma {:induction false} JoinSplit(s: string)
    ensures Join(Split(s)) == s
  {
    if s != [] {
      JoinSplit(s[1..]);
      var rest := Split(s[1..]);
      assert s == [s[0]] + s[1..];
      if s[0] == '\n' {
        assert ([[]] + rest)[1..] == rest;
      } else {
        JoinPrefix(s[0], rest);
      }
    }
  }

  lemma JoinPrefix(c: char, lines: seq<string>)
    requires lines != []
    ensures Join([[c] + lines[0]] + lines[1..]) == [c] + Join(lines)
  {
    var more := [[c] + lines[0]] + lines[1..];
    assert more[1..] == lines[1..];
    if |lines| > 1 { assert [c] + (lines[0] + "\n" + Join(lines[1..])) == [c] + lines[0] + "\n" + Join(lines[1..]); }
  }

  ghost predicate SingleLine(e: SseEvent) { '\n' !in e.event && '\n' !in e.id }

  ghost predicate Plain(lines: seq<string>) { forall l | l in lines :: l != [] && '\n' !in l }

  lemma DataLinesArePlain(data: string)
    ensures Plain(Labelled(DataLines(data))) && |DataLines(data)| > 0
  {
    SplitHasNoBreaks(data);
    var split, lines := Split(data), DataLines(data);
    hide Split;
    forall l | l in Labelled(lines) ensures l != [] && '\n' !in l {
      var i :| 0 <= i < |lines| && l == "data: " + lines[i];
      assert split[i] in split && '\n' !in split[i];
    }
  }

  lemma HeadIsPlain(e: SseEvent)
    requires SingleLine(e)
    ensures Plain(Head(e))
  {
    if e.retry.Some? { DigitsAreDigits(e.retry.value); }
    hide Digits;
  }

  lemma FrameLinesArePlain(e: SseEvent)
    requires SingleLine(e)
    ensures FrameLines(e) != [] && Plain(FrameLines(e))
  {
    DataLinesArePlain(e.data);
    HeadIsPlain(e);
    hide Head, DataLines;
  }

  lemma FrameParses(e: SseEvent)
    requires SingleLine(e)
    ensures ParseFrame(Join(FrameLines(e))) == Received(e)
  {
    hide Head, TakeLines, Labelled, DataLines, Trimmed, Split, Join, SingleLine, Trim, Parsed;
    var start, lines := Fields("message", None, []), DataLines(e.data);
    FrameLinesArePlain(e);
    SplitJoin(FrameLines(e));
    TakeHead(e);
    TakeMore(start, Head(e), Labelled(lines));
    TakeData(TakeLines(start, Head(e)), lines);
    assert [] + Trimmed(lines) == Trimmed(lines);
  }

  lemma SingleLineFrameIsRead(e: SseEvent, more: string)
    requires SingleLine(e)
    ensures Drain(Frame(e) + more) == (Received(e) + Drain(more).0, Drain(more).1)
  {
    hide FrameLines, Received, Join, Blank, ParseFrame, Unlines, SingleLine;
    var lines := FrameLines(e);
    FrameLinesArePlain(e);
    FrameParses(e);
    UnlinesJoin(lines);
    BlankEndsFrame(lines, more);
    var body, text := Join(lines), Frame(e) + more;
    assert text == body + "\n\n" + more;
    assert text[..|body|] == body && text[|body| + 2..] == more;
  }

  // ---- any frame, whatever its name and id hold

  lemma {:induction false} BlankFound(s: string, k: nat)
    requires k + 2 <= |s| && s[k] == '\n' && s[k + 1] == '\n'
    ensures Blank(s).Some? && Blank(s).value <= k
  {
    if k > 0 { BlankFound(s[1..], k - 1); }
  }

  /** A text that ends in one blank line is drained to the end. */
  lemma {:induction false} BlankLineDrains(text: string, c: char)
    requires c != '\n'
    ensures Drain(text + [c] + "\n\n").1 == ""
    decreases |text|
  {
    hide ParseFrame;
    var n, whole := |text|, text + [c] + "\n\n";
    assert whole[n] == c && whole[n + 1] == '\n' && whole[n + 2] == '\n';
    BlankFound(whole, n + 1);
    var at := Blank(whole).value;
    assert whole[at..at + 2][0] == whole[at] && whole[at..at + 2][1] == whole[at + 1];
    assert at != n && at + 1 != n;
    hide Blank;
    if at == n + 1 {
      assert whole[at + 2..] == "";
      NothingDrains();
    } else {
      assert whole[at + 2..] == text[at + 2..] + [c] + "\n\n";
      BlankLineDrains(text[at + 2..], c);
    }
  }

  lemma NothingDrains()
    ensures Drain("") == ([], "")
  {
  }

  lemma LinesEnd(lines: seq<string>) returns (text: string, c: char)
    requires lines != [] && lines[|lines| - 1] != [] && '\n' !in lines[|lines| - 1]
    ensures c != '\n' && Unlines(lines) + "\n" == text + [c] + "\n\n"
  {
    var before, last := Unlines(lines[..|lines| - 1]), lines[|lines| - 1];
    assert Unlines(lines) == before + last + "\n";
    hide Unlines;
    c := last[|last| - 1];
    text := before + last[..|last| - 1];
    assert last == last[..|last| - 1] + [c];
    assert text + [c] + "\n\n" == before + last + "\n" + "\n";
  }

  lemma FrameEnds(e: SseEvent) returns (text: string, c: char)
    ensures c != '\n' && Frame(e) == text + [c] + "\n\n"
  {
    hide Head, DataLines, Unlines;
    var lines, sent := Labelled(DataLines(e.data)), FrameLines(e);
    DataLinesArePlain(e.data);
    assert sent[|sent| - 1] == lines[|lines| - 1] && lines[|lines| - 1] in lines;
    hide Labelled, FrameLines;
    text, c := LinesEnd(sent);
  }

  /** What a reader gets from one sent event. */
  function Read(e: SseEvent): seq<SSEEvent> { Drain(Frame(e)).0 }

  /** A frame is read to its end whatever follows; kept to its lines, it is read as one frame. */
  lemma FrameIsRead(e: SseEvent, more: string)
    ensures Drain(Frame(e) + more) == (Read(e) + Drain(more).0, Drain(more).1)
    ensures SingleLine(e) ==> Read(e) == Received(e)
  {
    hide Drain, Frame, SingleLine, Received;
    var text, c := FrameEnds(e);
    BlankLineDrains(text, c);
    DrainInSteps(Frame(e), more);
    assert "" + more == more;
    if SingleLine(e) {
      SingleLineFrameIsRead(e, "");
      NothingDrains();
      assert Frame(e) + "" == Frame(e) && Received(e) + [] == Received(e);
    }
  }

  function Frames(es: seq<SseEvent>): string { if es == [] then [] else Frame(es[0]) + Frames(es[1..]) }

  function AllRead(es: seq<SseEvent>): seq<SSEEvent> { if es == [] then [] else Read(es[0]) + AllRead(es[1..]) }

  lemma {:induction false} FramesDrain(es: seq<SseEvent>)
    ensures Drain(Frames(es)) == (AllRead(es), "")
  {
    hide Drain, Frame, Read, SingleLine;
    if es == [] {
      NothingDrains();
    } else {
      FrameIsRead(es[0], Frames(es[1..]));
      FramesDrain(es[1..]);
    }
  }

  /** Any run of frames, cut anywhere, is read frame by frame in order and leaves nothing in the buffer. */
  lemma FramesAreRead(es: seq<SseEvent>, chunks: seq<string>)
    requires Concat(chunks) == Frames(es)
    ensures Drain(Concat(chunks)) == (AllRead(es), "")
    ensures forall e | e in es && SingleLine(e) :: Read(e) == Received(e)
  {
    hide Drain, Frames, AllRead, SingleLine, Read, Received;
    FramesDrain(es);
    forall e | e in es && SingleLine(e) ensures Read(e) == Received(e) { FrameIsRead(e, ""); }
  }

  lemma {:induction false} TrimTwice(s: string)
    ensures Trim(Trim(s)) == Trim(s)
    decreases |s|
  {
    if s != [] && IsSpace(s[0]) {
      TrimTwice(s[1..]);
    } else if s != [] && IsSpace(s[|s| - 1]) {
      TrimTwice(s[..|s| - 1]);
    }
  }

  lemma {:induction false} TrimHasNoBreaks(s: string)
    requires '\n' !in s
    ensures '\n' !in Trim(s)
    decreases |s|
  {
    if s != [] && IsSpace(s[0]) {
      TrimHasNoBreaks(s[1..]);
    } else if s != [] && IsSpace(s[|s| - 1]) {
      TrimHasNoBreaks(s[..|s| - 1]);
    }
  }

  /**
   * The data comes back as it was sent, blank lines and all, exactly when it is not empty and no line of it starts or
   * ends with a space (or ends in a carriage return); otherwise the event is altered or lost. This is what a reader
   * gets of an event whose name and id hold no line break; a break in them puts more lines, or frames, on the wire.
   */
  lemma DataSurvives(e: SseEvent)
    ensures (|Received(e)| == 1 && Received(e)[0].data == e.data) <==> TrimmedData(e.data)
    ensures SingleLine(e) ==> ((|Read(e)| == 1 && Read(e)[0].data == e.data) <==> TrimmedData(e.data))
  {
    DataIsKept(e);
    hide Received, Read, TrimmedData, SingleLine, Drain, Frame;
    FrameIsRead(e, "");
  }

  predicate TrimmedData(data: string) { data != "" && forall l | l in Split(data) :: Trim(l) == l }

  lemma TrimmedHasNoBreaks(data: string)
    ensures |Trimmed(DataLines(data))| == |Split(data)| > 0 && forall l | l in Trimmed(DataLines(data)) :: '\n' !in l
  {
    var split, lines := Split(data), DataLines(data);
    SplitHasNoBreaks(data);
    hide Split, Trim;
    forall l | l in Trimmed(lines) ensures '\n' !in l {
      var i :| 0 <= i < |lines| && l == Trim(lines[i]);
      assert split[i] in split;
      TrimHasNoBreaks(lines[i]);
    }
  }

  /** Cutting carriage returns and trimming leaves the lines as they were exactly when they were trimmed. */
  lemma TrimmedIsSplit(data: string)
    ensures Trimmed(DataLines(data)) == Split(data) <==> forall l | l in Split(data) :: Trim(l) == l
  {
    var split, lines := Split(data), DataLines(data);
    hide Split, Trim;
    if Trimmed(lines) == split {
      forall l | l in split ensures Trim(l) == l {
        var i :| 0 <= i < |split| && split[i] == l;
        assert Trimmed(lines)[i] == l;
        TrimTwice(lines[i]);
      }
    }
    if forall l | l in split :: Trim(l) == l {
      forall i | 0 <= i < |split| ensures Trimmed(lines)[i] == split[i] {
        assert split[i] in split;
        NoCr(split[i]);
      }
    }
  }

  lemma DataIsKept(e: SseEvent)
    ensures (|Received(e)| == 1 && Received(e)[0].data == e.data) <==> TrimmedData(e.data)
  {
    hide Split, Trim, Trimmed, DataLines, Join;
    var lines := Trimmed(DataLines(e.data));
    TrimmedHasNoBreaks(e.data);
    SplitJoin(lines);
    JoinSplit(e.data);
    TrimmedIsSplit(e.data);
  }

  lemma NoCr(line: string)
    requires Trim(line) == line
    ensures WithoutCr(line) == line
  {
    if line != [] && line[|line| - 1] == '\r' { TrimShortens(line); }
  }

  lemma {:induction false} TrimShortens(s: string)
    ensures |Trim(s)| <= |s| && (s != [] && IsSpace(s[|s| - 1]) ==> |Trim(s)| < |s|)
    decreases |s|
  {
    if s != [] && IsSpace(s[0]) {
      TrimShortens(s[1..]);
    } else if s != [] && IsSpace(s[|s| - 1]) {
      TrimShortens(s[..|s| - 1]);
    }
  }

  // ---- the whole round trip

  /** The event a reader should see: a missing name is "message", a missing id is no id. */
  function Meant(e: SseEvent): SSEEvent {
    SSEEvent(if e.event == "" then "message" else e.event, e.data, if e.id == "" then None else Some(e.id))
  }

  function AllMeant(es: seq<SseEvent>): seq<SSEEvent> { if es == [] then [] else [Meant(es[0])] + AllMeant(es[1..]) }

  /** Name, id and every line of the data have no space at either end, and there is some data. */
  predicate Survives(e: SseEvent) { Trim(e.event) == e.event && Trim(e.id) == e.id && TrimmedData(e.data) }

  lemma EventSurvives(e: SseEvent)
    ensures |Received(e)| <= 1
    ensures Received(e) == [Meant(e)] <==> Survives(e)
  {
    DataIsKept(e);
    hide Split, Trimmed, DataLines, TrimmedData;
    assert Trim("") == "" && Trim("message") == "message" by { MessageIsTrimmed(); }
    hide Trim;
  }

  lemma MessageIsTrimmed()
    ensures Trim("") == "" && Trim("message") == "message"
  {
  }

  lemma {:induction false} AllSurvive(es: seq<SseEvent>)
    requires forall e | e in es :: SingleLine(e)
    ensures |AllRead(es)| <= |es| == |AllMeant(es)|
    ensures AllRead(es) == AllMeant(es) <==> forall e | e in es :: Survives(e)
    decreases |es|
  {
    hide Received, Read, Meant, Survives, SingleLine, Drain, Frame;
    if es != [] {
      var rest := es[1..];
      assert es[0] in es && forall e | e in rest :: e in es;
      FrameIsRead(es[0], "");
      EventSurvives(es[0]);
      AllSurvive(rest);
      assert forall e :: e in es <==> e == es[0] || e in rest;
      if AllRead(es) == AllMeant(es) {
        assert |Read(es[0])| == 1;
        assert Read(es[0]) == AllRead(es)[..1] == AllMeant(es)[..1] == [Meant(es[0])];
        assert AllRead(rest) == AllRead(es)[1..] == AllMeant(es)[1..] == AllMeant(rest);
      }
    }
  }

  // ---- no event that is read holds a line break in its name or id

  ghost predicate Unbroken(event: string, id: Option<string>) {
    '\n' !in event && (id.Some? ==> '\n' !in id.value)
  }

  lemma {:induction false} LinesStayUnbroken(f: Fields, lines: seq<string>)
    requires Unbroken(f.event, f.id) && forall l | l in lines :: '\n' !in l
    ensures Unbroken(TakeLines(f, lines).event, TakeLines(f, lines).id)
    decreases |lines|
  {
    hide Trim;
    if lines != [] {
      var n := |lines| - 1;
      LinesStayUnbroken(f, lines[..n]);
      assert lines[n] in lines;
      LineStaysUnbroken(TakeLines(f, lines[..n]), lines[n]);
    }
  }

  lemma LineStaysUnbroken(f: Fields, line: string)
    requires Unbroken(f.event, f.id) && '\n' !in line
    ensures Unbroken(TakeLine(f, line).event, TakeLine(f, line).id)
  {
    hide Trim;
    if StartsWith(line, "event:") { TrimHasNoBreaks(line[6..]); }
    if StartsWith(line, "id:") { TrimHasNoBreaks(line[3..]); }
  }

  lemma {:induction false} DrainedAreUnbroken(buf: string)
    ensures forall x | x in Drain(buf).0 :: Unbroken(x.event, x.id)
    decreases |buf|
  {
    hide TakeLines, Split, Join;
    var at := Blank(buf);
    if at.Some? {
      var lines := Split(buf[..at.value]);
      SplitHasNoBreaks(buf[..at.value]);
      LinesStayUnbroken(Fields("message", None, []), lines);
      hide Blank;
      DrainedAreUnbroken(buf[at.value + 2..]);
    }
  }

  lemma {:induction false} MeantIsUnbroken(es: seq<SseEvent>, e: SseEvent)
    requires e in es && forall x | x in AllMeant(es) :: Unbroken(x.event, x.id)
    ensures SingleLine(e)
  {
    if e == es[0] {
      assert Meant(e) == AllMeant(es)[0] && Meant(e) in AllMeant(es);
    } else {
      assert forall x | x in AllMeant(es[1..]) :: x in AllMeant(es);
      MeantIsUnbroken(es[1..], e);
    }
  }

  /**
   * However the bytes are cut, the events read are the events sent, and nothing stays in the buffer, exactly when every
   * name, id and line of data is trimmed, no data is empty, and no name or id holds a line break.
   */
  lemma EventsSentAreRead(es: seq<SseEvent>, chunks: seq<string>)
    requires Concat(chunks) == Frames(es)
    ensures Drain(Concat(chunks)) == (AllMeant(es), "") <==> forall e | e in es :: Survives(e) && SingleLine(e)
  {
    hide Drain, Frames, AllRead, AllMeant, Survives, Concat, SingleLine, Unbroken, Read, Received;
    FramesAreRead(es, chunks);
    if AllRead(es) == AllMeant(es) {
      DrainedAreUnbroken(Frames(es));
      forall e | e in es ensures SingleLine(e) { MeantIsUnbroken(es, e); }
    }
    if forall e | e in es :: SingleLine(e) { AllSurvive(es); }
  }

  /** A name or id with a line break is sent unescaped, and never read back. */
  lemma BrokenNamesAreLost(e: SseEvent)
    requires !SingleLine(e)
    ensures Read(e) != [Meant(e)]
  {
    hide Drain, Frame;
    DrainedAreUnbroken(Frame(e));
    assert Meant(e) in [Meant(e)];
  }
}
