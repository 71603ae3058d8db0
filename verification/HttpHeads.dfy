/** Response heads as they are sent are read back: status lines, fields, interim responses. */
module HttpHeads {
  import opened Prelude
  import opened HttpReader
  import opened HttpLaws

  // ---- status lines

  /** `reason` has its leading space, or is empty. */
  datatype StatusText = StatusText(minor: char, code: string, reason: string)

  predicate GoodStatus(s: StatusText) {
    && s.minor in "01" && |s.code| == 3 && '1' <= s.code[0] <= '5' && All(s.code, IsDigit)
    && (s.reason == [] || (s.reason[0] == ' ' && All(s.reason, IsPrintable)))
  }

  function StatusStart(s: StatusText): string { "HTTP/1." + [s.minor] + " " + s.code + s.reason }

  function StatusLine(s: StatusText): string { StatusStart(s) + CRLF }

  lemma StatusReads(s: StatusText)
    requires GoodStatus(s)
    ensures Status(StatusLine(s)) == Some(Number(s.code, 10)) && '\n' !in StatusStart(s)
  {
    var line, head := StatusLine(s), "HTTP/1." + [s.minor] + " ";
    assert line == head + s.code + s.reason + CRLF && |head| == 9;
    assert line[..7] == "HTTP/1." && line[7] == s.minor && line[8] == ' ';
    assert line[9..12] == s.code && line[12..|line| - 2] == s.reason && line[|line| - 2..] == CRLF;
    assert !IsDigit('\n') && !IsPrintable('\n');
    assert '\n' !in head;
    hide Number;
  }

  lemma StatusParts(line: string) returns (s: StatusText)
    requires Status(line).Some?
    ensures GoodStatus(s) && StatusLine(s) == line
  {
    s := StatusText(line[7], line[9..12], line[12..|line| - 2]);
    assert line == line[..7] + [line[7]] + [line[8]] + line[9..12] + line[12..|line| - 2] + line[|line| - 2..];
    assert [line[8]] == " ";
    hide Number;
  }

  // ---- fields

  datatype FieldText = FieldText(name: string, value: string)

  predicate GoodField(f: FieldText) {
    f.name != [] && All(f.name, IsTokenChar) && All(f.value, IsFieldChar)
      && |f.name| + |f.value| + 3 <= MAX_HEADER_LINE_BYTES
  }

  function FieldStart(f: FieldText): string { f.name + ":" + f.value }

  function FieldLine(f: FieldText): string { FieldStart(f) + CRLF }

  function Meant(f: FieldText): Field { Field(Lower(f.name), Strip(f.value)) }

  lemma TokensAreClean(name: string)
    requires All(name, IsTokenChar)
    ensures ':' !in name && '\n' !in name
  {
    assert !IsTokenChar(':') && !IsTokenChar('\n');
  }

  lemma FieldReads(f: FieldText)
    requires GoodField(f)
    ensures FieldOf(FieldLine(f)) == Some(Meant(f)) && '\n' !in FieldStart(f)
    ensures FieldLine(f) != CRLF && |FieldLine(f)| <= MAX_HEADER_LINE_BYTES
  {
    TokensAreClean(f.name);
    hide IsTokenChar;
    assert !IsFieldChar('\n');
    assert FieldLine(f)[..|FieldLine(f)| - 2] == f.name + [':'] + f.value;
    PartitionFinds(f.name, ':', f.value);
    hide Lower, Strip;
  }

  lemma FieldParts(line: string) returns (f: FieldText)
    requires 2 <= |line| <= MAX_HEADER_LINE_BYTES && line == line[..|line| - 2] + CRLF && FieldOf(line).Some?
    ensures GoodField(f) && FieldLine(f) == line && FieldOf(line) == Some(Meant(f))
  {
    hide IsTokenChar, Lower, Strip;
    PartitionSplits(line[..|line| - 2], ':');
    var p := Partition(line[..|line| - 2], ':');
    f := FieldText(p.before, p.after);
    assert FieldStart(f) == line[..|line| - 2];
  }

  /** Stripping removes the blanks at both ends and nothing else. */
  lemma {:induction false} StripMeans(s: string) returns (left: string, right: string)
    ensures s == left + Strip(s) + right && All(left, IsBlank) && All(right, IsBlank)
    ensures Strip(s) == [] || (!IsBlank(Strip(s)[0]) && !IsBlank(Strip(s)[|Strip(s)| - 1]))
    decreases |s|
  {
    left, right := [], [];
    if s != [] && IsBlank(s[0]) {
      left, right := StripMeans(s[1..]);
      assert s == [s[0]] + s[1..];
      assert [s[0]] + (left + Strip(s) + right) == [s[0]] + left + Strip(s) + right;
      left := [s[0]] + left;
    } else if s != [] && IsBlank(s[|s| - 1]) {
      left, right := StripMeans(s[..|s| - 1]);
      assert s == s[..|s| - 1] + [s[|s| - 1]];
      assert left + Strip(s) + right + [s[|s| - 1]] == left + Strip(s) + (right + [s[|s| - 1]]);
      right := right + [s[|s| - 1]];
    }
  }

  function FieldLines(fs: seq<FieldText>): string { if fs == [] then [] else FieldLine(fs[0]) + FieldLines(fs[1..]) }

  function AllMeant(fs: seq<FieldText>): seq<Field> { if fs == [] then [] else [Meant(fs[0])] + AllMeant(fs[1..]) }

  lemma BlankLineReads(later: string)
    ensures Line(CRLF + later, MAX_HEADER_LINE_BYTES) == Some((CRLF, later))
  {
    LineReads([], later, MAX_HEADER_LINE_BYTES);
    assert [] + CRLF + later == CRLF + later && [] + CRLF == CRLF;
  }

  lemma FieldLineReads(f: FieldText, more: string)
    requires GoodField(f)
    ensures Line(FieldLine(f) + more, MAX_HEADER_LINE_BYTES) == Some((FieldLine(f), more))
  {
    hide Line, GoodField;
    FieldReads(f);
    LineReads(FieldStart(f), more, MAX_HEADER_LINE_BYTES);
    assert FieldStart(f) + CRLF + more == FieldLine(f) + more;
  }

  /** Up to a hundred fields within the size of a head, and the blank line, are read as what they mean. */
  lemma {:induction false} FieldsAreRead(fs: seq<FieldText>, later: string, index: nat, total: nat)
    requires (forall f | f in fs :: GoodField(f)) && index + |fs| <= MAX_HEADER_COUNT
             && total + |FieldLines(fs)| + 2 <= MAX_HEADER_BYTES
    ensures FieldsFrom(FieldLines(fs) + CRLF + later, index, total)
            == Some((AllMeant(fs), total + |FieldLines(fs)| + 2, later))
    decreases |fs|
  {
    hide Line, GoodField, FieldOf, FieldLine, Meant;
    if fs == [] {
      BlankLineReads(later);
      assert FieldLines(fs) + CRLF + later == CRLF + later;
    } else {
      var f, rest := fs[0], fs[1..];
      assert f in fs && forall g | g in rest :: g in fs;
      var more := FieldLines(rest) + CRLF + later;
      assert FieldLines(fs) + CRLF + later == FieldLine(f) + more;
      FieldLineReads(f, more);
      FieldReads(f);
      FieldsAreRead(rest, later, index + 1, total + |FieldLine(f)|);
    }
  }

  // ---- heads

  datatype HeadText = HeadText(status: StatusText, fields: seq<FieldText>)

  function Code(h: HeadText): nat { if All(h.status.code, IsHex) then Number(h.status.code, 10) else 0 }

  /** What the fields mean together. */
  function HeadersOf(h: HeadText): map<string, string> {
    var all := CollectFrom(map[], AllMeant(h.fields));
    if all.Some? then all.value else map[]
  }

  function HeadBytes(h: HeadText): string { StatusLine(h.status) + FieldLines(h.fields) + CRLF }

  /** Well formed, small enough to follow `total` bytes of earlier heads, and without a repeated single field. */
  ghost predicate GoodHead(h: HeadText, total: nat) {
    && GoodStatus(h.status) && |StatusLine(h.status)| <= MAX_HEADER_LINE_BYTES
    && (forall f | f in h.fields :: GoodField(f)) && |h.fields| <= MAX_HEADER_COUNT
       && total + |HeadBytes(h)| <= MAX_HEADER_BYTES
    && CollectFrom(map[], AllMeant(h.fields)).Some?
  }

  lemma StatusBlockReads(h: HeadText, later: string, total: nat)
    requires GoodHead(h, total)
    ensures Line(HeadBytes(h) + later, MAX_HEADER_LINE_BYTES)
            == Some((StatusLine(h.status), FieldLines(h.fields) + CRLF + later))
    ensures Status(StatusLine(h.status)) == Some(Code(h))
  {
    hide Line, Status, GoodField, FieldLines, AllMeant, CollectFrom, Number;
    StatusReads(h.status);
    var rest := FieldLines(h.fields) + CRLF + later;
    assert HeadBytes(h) + later == StatusStart(h.status) + CRLF + rest;
    LineReads(StatusStart(h.status), rest, MAX_HEADER_LINE_BYTES);
  }

  lemma FieldBlockReads(h: HeadText, later: string, total: nat)
    requires GoodHead(h, total)
    ensures HeadersFrom(FieldLines(h.fields) + CRLF + later, 0, total + |StatusLine(h.status)|, map[])
            == Some(Block(HeadersOf(h), total + |HeadBytes(h)|, later))
  {
    hide GoodField, GoodStatus, StatusLine, FieldLines, AllMeant, CollectFrom, FieldsFrom, HeadersFrom;
    var rest, start := FieldLines(h.fields) + CRLF + later, total + |StatusLine(h.status)|;
    FieldsAreRead(h.fields, later, 0, start);
    HeadersCollectFields(rest, 0, start, map[]);
    assert start + |FieldLines(h.fields)| + 2 == total + |HeadBytes(h)|;
  }

  lemma HeadBlockReads(h: HeadText, later: string, total: nat)
    requires GoodHead(h, total)
    ensures Line(HeadBytes(h) + later, MAX_HEADER_LINE_BYTES)
            == Some((StatusLine(h.status), FieldLines(h.fields) + CRLF + later))
    ensures Status(StatusLine(h.status)) == Some(Code(h))
    ensures HeadersFrom(FieldLines(h.fields) + CRLF + later, 0, total + |StatusLine(h.status)|, map[])
            == Some(Block(HeadersOf(h), total + |HeadBytes(h)|, later))
  {
    hide Line, Status, HeadersFrom, StatusLine, FieldLines, GoodHead, Code, HeadersOf, HeadBytes;
    StatusBlockReads(h, later, total);
    FieldBlockReads(h, later, total);
  }

  lemma HeadStep(s: string, seen: nat, total: nat, line: string, rest: string, code: nat, block: Block)
    requires seen < MAX_STATUSES && Line(s, MAX_HEADER_LINE_BYTES) == Some((line, rest)) && Status(line) == Some(code)
    requires HeadersFrom(rest, 0, total + |line|, map[]) == Some(block)
    ensures HeadFrom(s, seen, total) == if code == 101 then None
                                        else if code >= 200 then Some(Head(code, block.headers, block.total,
                                          block.rest))
                                        else HeadFrom(block.rest, seen + 1, block.total)
  {
    hide Line, Status, HeadersFrom;
  }

  /** One head at the front of the stream: final, interim or an upgrade. */
  lemma OneHeadIsRead(h: HeadText, more: string, seen: nat, total: nat)
    requires GoodHead(h, total) && seen < MAX_STATUSES
    ensures HeadFrom(HeadBytes(h) + more, seen, total)
            == if Code(h) == 101 then None
               else if Code(h) >= 200 then Some(Head(Code(h), HeadersOf(h), total + |HeadBytes(h)|, more))
               else HeadFrom(more, seen + 1, total + |HeadBytes(h)|)
  {
    hide Line, Status, HeadersFrom, HeadFrom, StatusLine, FieldLines, GoodHead, Code, HeadersOf, HeadBytes;
    HeadBlockReads(h, more, total);
    var line, rest := StatusLine(h.status), FieldLines(h.fields) + CRLF + more;
    var block := Block(HeadersOf(h), total + |HeadBytes(h)|, more);
    HeadStep(HeadBytes(h) + more, seen, total, line, rest, Code(h), block);
  }

  function InterimBytes(hs: seq<HeadText>): string { if hs == [] then [] else HeadBytes(hs[0]) + InterimBytes(hs[1..]) }

  ghost predicate GoodInterims(hs: seq<HeadText>, total: nat)
    decreases |hs|
  {
    hs != [] ==>
      && GoodHead(hs[0], total) && Code(hs[0]) < 200 && Code(hs[0]) != 101
      && GoodInterims(hs[1..], total + |HeadBytes(hs[0])|)
  }

  /** Up to four interim responses before the final one are skipped, and their bytes counted. */
  lemma {:induction false} InterimsAreSkipped(hs: seq<HeadText>, more: string, seen: nat, total: nat)
    requires GoodInterims(hs, total) && seen + |hs| <= MAX_STATUSES
    ensures HeadFrom(InterimBytes(hs) + more, seen, total) == HeadFrom(more, seen + |hs|, total + |InterimBytes(hs)|)
    decreases |hs|
  {
    hide HeadFrom, GoodHead, Code, HeadBytes;
    if hs == [] {
      assert InterimBytes(hs) + more == more;
    } else {
      var h, rest := hs[0], InterimBytes(hs[1..]) + more;
      assert InterimBytes(hs) + more == HeadBytes(h) + rest;
      OneHeadIsRead(h, rest, seen, total);
      InterimsAreSkipped(hs[1..], more, seen + 1, total + |HeadBytes(h)|);
    }
  }

  /** A whole response head: interim responses, then the final status and fields, then whatever the body is. */
  lemma ResponseHeadIsRead(hs: seq<HeadText>, h: HeadText, later: string)
    requires GoodInterims(hs, 0) && |hs| < MAX_STATUSES && GoodHead(h, |InterimBytes(hs)|) && Code(h) >= 200
    ensures var sent := InterimBytes(hs) + HeadBytes(h);
            ResponseHeaders(sent + later) == Some(Head(Code(h), HeadersOf(h), |sent|, later))
              && Held(HeadersOf(h), AllMeant(h.fields))
  {
    hide HeadFrom, GoodInterims, InterimBytes, HeadBytes, GoodHead, Code, HeadersOf, Held, AllMeant;
    HeadersAreHeld(h, |InterimBytes(hs)|);
    assert InterimBytes(hs) + HeadBytes(h) + later == InterimBytes(hs) + (HeadBytes(h) + later);
    InterimsAreSkipped(hs, HeadBytes(h) + later, 0, 0);
    OneHeadIsRead(h, later, |hs|, |InterimBytes(hs)|);
  }

  lemma HeadersAreHeld(h: HeadText, total: nat)
    requires GoodHead(h, total)
    ensures Held(HeadersOf(h), AllMeant(h.fields))
  {
    assert Held(map[], []);
    CollectHolds(map[], [], AllMeant(h.fields));
    assert [] + AllMeant(h.fields) == AllMeant(h.fields);
  }
}
