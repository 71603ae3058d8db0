/** What a server-sent event looks like on the wire, line by line. */
module EventWire {
  import opened Prelude
  import opened Numerals
  import opened ServerEvents

  // ---- line breaks of the data

  /** The text with every carriage return that stands before a line feed left out. */
  function Unix(s: string): string {
    if s == [] then [] else if |s| >= 2 && s[0] == '\r' && s[1] == '\n' then Unix(s[1..]) else [s[0]] + Unix(s[1..])
  }

  lemma SplitFirstChar(s: string)
    requires s != []
    ensures Split(s) == if s[0] == '\n' then [[]] + Split(s[1..])
                        else [[s[0]] + Split(s[1..])[0]] + Split(s[1..])[1..]
  {
  }

  lemma SplitStarts(s: string)
    ensures Split(s)[0] == [] <==> s == [] || s[0] == '\n'
    ensures |Split(s)| == 1 ==> Split(s)[0] == s
    ensures s != [] && s[0] == '\n' ==> |Split(s)| > 1
  {
    if s != [] {
      SplitFirstChar(s);
      hide Split;
      if |Split(s)| == 1 { SplitAlone(s); }
    }
  }

  lemma {:induction false} SplitAlone(s: string)
    requires |Split(s)| == 1
    ensures Split(s)[0] == s
  {
    if s != [] { SplitAlone(s[1..]); }
  }

  lemma DataFirstChar(s: string)
    requires s != []
    ensures var rest := DataLines(s[1..]);
            && rest != []
            && (s[0] == '\n' ==> DataLines(s) == [[]] + rest)
            && (s[0] != '\n' && !(s[0] == '\r' && |s| >= 2 && s[1] == '\n') ==>
                  DataLines(s) == [[s[0]] + rest[0]] + rest[1..])
            && (s[0] == '\r' && |s| >= 2 && s[1] == '\n' ==> DataLines(s) == rest)
  {
    SplitFirstChar(s);
    SplitStarts(s[1..]);
    var lines := Split(s[1..]);
    DataLinesAreStripped(s);
    DataLinesAreStripped(s[1..]);
    hide Split, DataLines, WithoutCr, Stripped;
    if s[0] == '\n' { BlankFirst(lines); } else { LongerFirst(lines, s[0]); }
  }

  /** The data lines of a text that is split like this. */
  function Stripped(lines: seq<string>): seq<string> {
    seq(|lines|, i requires 0 <= i < |lines| => if i < |lines| - 1 then WithoutCr(lines[i]) else lines[i])
  }

  lemma DataLinesAreStripped(data: string)
    ensures DataLines(data) == Stripped(Split(data))
  {
    hide Split, WithoutCr;
  }

  lemma StrippedParts(line: string, rest: seq<string>)
    ensures Stripped([line] + rest) == [if rest != [] then WithoutCr(line) else line] + Stripped(rest)
  {
    hide WithoutCr;
    var all, out := [line] + rest, Stripped([line] + rest);
    assert |out| == |rest| + 1 && out[0] == if rest != [] then WithoutCr(line) else line;
    forall i | 0 <= i < |rest| ensures out[i + 1] == Stripped(rest)[i] { assert all[i + 1] == rest[i]; }
  }

  lemma LongerFirst(lines: seq<string>, c: char)
    requires lines != []
    ensures var longer, rest := Stripped([[c] + lines[0]] + lines[1..]), Stripped(lines);
            && rest != []
            && (!(c == '\r' && lines[0] == [] && |lines| > 1) ==> longer == [[c] + rest[0]] + rest[1..])
            && (c == '\r' && lines[0] == [] && |lines| > 1 ==> longer == rest)
  {
    assert lines == [lines[0]] + lines[1..];
    FirstLine(c, lines[0]);
    StrippedParts(lines[0], lines[1..]);
    StrippedParts([c] + lines[0], lines[1..]);
    assert WithoutCr([]) == [];
    hide Stripped, WithoutCr;
  }

  lemma BlankFirst(lines: seq<string>)
    requires lines != []
    ensures Stripped([[]] + lines) == [[]] + Stripped(lines) && Stripped(lines) != []
  {
    assert WithoutCr([]) == [];
    StrippedParts([], lines);
    assert |Stripped(lines)| == |lines|;
  }

  /** A character before a line that ends the same way. */
  lemma FirstLine(c: char, line: string)
    ensures line != [] || c != '\r' ==> WithoutCr([c] + line) == [c] + WithoutCr(line)
    ensures WithoutCr(['\r'] + []) == []
  {
    if line != [] {
      assert ([c] + line)[|line|] == line[|line| - 1] && ([c] + line)[..|line|] == [c] + line[..|line| - 1];
    }
  }

  lemma JoinFirst(line: string, c: char, rest: seq<string>)
    ensures Join([[c] + line] + rest) == [c] + Join([line] + rest)
    ensures rest != [] ==> Join([[]] + rest) == "\n" + Join(rest)
  {
    assert ([[c] + line] + rest)[1..] == rest && ([line] + rest)[1..] == rest && ([[]] + rest)[1..] == rest;
    if rest != [] { assert [c] + line + "\n" + Join(rest) == [c] + (line + "\n" + Join(rest)); }
  }

  /** The data lines are the data, cut at its line breaks; a carriage return is part of a break only before a feed. */
  lemma {:induction false} DataLinesAreTheData(data: string)
    ensures DataLines(data) != [] && Join(DataLines(data)) == Unix(data)
    ensures forall l | l in DataLines(data) :: '\n' !in l
  {
    DataLinesArePlain(data);
    if data != [] {
      var rest := DataLines(data[1..]);
      DataLinesAreTheData(data[1..]);
      DataFirstChar(data);
      hide DataLines;
      if data[0] == '\n' {
        JoinFirst([], '\n', rest);
      } else if !(data[0] == '\r' && |data| >= 2 && data[1] == '\n') {
        JoinFirst(rest[0], data[0], rest[1..]);
        assert rest == [rest[0]] + rest[1..];
      }
    }
  }

  // ---- the frame

  lemma HeadLines(e: SseEvent, x: string, n: nat)
    ensures ("id: " + x in Head(e)) <==> (x == e.id && x != "")
    ensures ("event: " + x in Head(e)) <==> (x == e.event && x != "" && x != "message")
    ensures ("retry: " + Digits(n) in Head(e)) <==> e.retry == Some(n)
    ensures |Head(e)| == (if e.id != "" then 1 else 0) + (if e.event != "" && e.event != "message" then 1 else 0)
                         + (if e.retry.Some? then 1 else 0)
  {
    if e.retry.Some? && Digits(e.retry.value) == Digits(n) { DigitsAreUnique(e.retry.value, n); }
    hide Digits;
    LabelsDiffer("id: ", x, e.id);
    LabelsDiffer("event: ", x, e.event);
    if e.retry.Some? { LabelsDiffer("retry: ", Digits(n), Digits(e.retry.value)); }
    var id, event := if e.id != "" then ["id: " + e.id] else [],
                     if e.event != "" && e.event != "message" then ["event: " + e.event] else [];
    var retry := if e.retry.Some? then ["retry: " + Digits(e.retry.value)] else [];
    assert Head(e) == id + event + retry;
    forall l ensures l in Head(e) <==> l in id || l in event || l in retry {}
    assert ("id: " + x)[0] == 'i' && ("event: " + x)[0] == 'e' && ("retry: " + Digits(n))[0] == 'r';
    forall l | l in id ensures l[0] == 'i' {}
    forall l | l in event ensures l[0] == 'e' {}
    forall l | l in retry ensures l[0] == 'r' {}
  }

  lemma LabelsDiffer(start: string, x: string, y: string)
    ensures start + x == start + y <==> x == y
  {
    assert (start + x)[|start|..] == x && (start + y)[|start|..] == y;
  }

  lemma SplitEnd(text: string)
    ensures Split(text + "\n") == Split(text) + [[]]
    decreases |text|
  {
    if text == [] {
      assert Split("\n") == [[]] + Split([]) by { assert "\n"[1..] == []; }
      assert [] + "\n" == "\n";
    } else {
      assert (text + "\n")[1..] == text[1..] + "\n";
      SplitEnd(text[1..]);
    }
  }

  lemma LinesSplit(sent: seq<string>)
    requires sent != [] && forall l | l in sent :: '\n' !in l
    ensures Split(Unlines(sent) + "\n") == sent + ["", ""]
  {
    UnlinesJoin(sent);
    SplitJoin(sent);
    SplitEnd(Join(sent));
    SplitEnd(Join(sent) + "\n");
    hide Split, Unlines, Join;
    assert sent + [[]] + [[]] == sent + ["", ""];
  }

  lemma FrameSplits(e: SseEvent)
    requires SingleLine(e)
    ensures Split(Frame(e)) == Head(e) + Labelled(DataLines(e.data)) + ["", ""]
  {
    FrameLinesArePlain(e);
    hide Head, Labelled, DataLines, Split, Unlines, SingleLine;
    LinesSplit(FrameLines(e));
  }

  /**
   * The frame of an event whose name and id hold no line break: a line for the id, the name and the delay each, if
   * there
   * is one, then the data line by line, and the blank line.
   */
  lemma FrameOnTheWire(e: SseEvent, x: string, n: nat) returns (head: seq<string>, body: seq<string>)
    requires SingleLine(e)
    ensures Split(Frame(e)) == head + body + ["", ""]
    ensures ("id: " + x in head <==> x == e.id && x != "")
    ensures ("event: " + x in head <==> x == e.event && x != "" && x != "message")
    ensures ("retry: " + Digits(n) in head <==> e.retry == Some(n))
    ensures |head| == (if e.id != "" then 1 else 0) + (if e.event != "" && e.event != "message" then 1 else 0)
                      + (if e.retry.Some? then 1 else 0)
    ensures |body| == |DataLines(e.data)| && forall i | 0 <= i < |body| :: body[i] == "data: " + DataLines(e.data)[i]
  {
    head, body := Head(e), Labelled(DataLines(e.data));
    FrameSplits(e);
    HeadLines(e, x, n);
    LabelledLines(DataLines(e.data));
  }

  lemma LabelledLines(lines: seq<string>)
    ensures |Labelled(lines)| == |lines| && forall i | 0 <= i < |lines| :: Labelled(lines)[i] == "data: " + lines[i]
  {
  }
}
