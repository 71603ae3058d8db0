/**
 * The incremental HTTP/1.1 response reader. A byte is the character with its code, as latin-1 decodes it, and None is
 * a raised BrowserNetworkError.
 */
module HttpReader {
  import opened Prelude

  const MAX_RESOURCE_BYTES: nat := 2 * 1024 * 1024
  const MAX_HEADER_BYTES: nat := 64 * 1024
  const MAX_HEADER_LINE_BYTES: nat := 8192
  const MAX_HEADER_COUNT: nat := 100
  const MAX_CHUNKS: nat := 4096
  const MAX_CHUNK_LINE_BYTES: nat := 128
  const MAX_STATUSES: nat := 5
  const MAX_RECEIVED_HTTP_BYTES: nat := 3 * 1024 * 1024
  const MAX_RESOURCE_WIRE_BYTES: nat := 4 * 1024 * 1024
  const READ_BYTES: nat := 65536
  const CRLF := "\r\n"

  const DISCARDED := {"set-cookie", "set-cookie2", "www-authenticate", "proxy-authenticate", "authentication-info",
                      "proxy-authentication-info"}
  const LISTS := {"cache-control", "vary", "pragma", "content-language", "accept-ranges",
                  "access-control-allow-methods", "access-control-allow-headers", "access-control-expose-headers",
                  "content-security-policy",
                  "content-security-policy-report-only", "referrer-policy"}

  // ---- lines

  /** The length of the first line with its line feed, or of everything when there is none. */
  function LineEnd(s: string): (n: nat)
    ensures n <= |s|
  {
    if s == [] then 0 else if s[0] == '\n' then 1 else 1 + LineEnd(s[1..])
  }

  function Line(s: string, maximum: nat): Option<(string, string)> {
    var line := s[..LineEnd(s)];
    if line == [] || |line| > maximum || |line| < 2 || line[|line| - 2..] != CRLF then None
    else Some((line, s[LineEnd(s)..]))
  }

  function Exact(s: string, size: nat): Option<(string, string)> {
    if |s| < size then None else Some((s[..size], s[size..]))
  }

  /** What stands before the first separator and what stands after it; `found` tells whether there is one. */
  datatype Split = Split(before: string, found: bool, after: string)

  function Partition(s: string, separator: char): Split {
    if s == [] then Split([], false, [])
    else if s[0] == separator then Split([], true, s[1..])
    else var p := Partition(s[1..], separator); Split([s[0]] + p.before, p.found, p.after)
  }

  // ---- characters

  predicate IsDigit(c: char) { '0' <= c <= '9' }

  predicate IsHex(c: char) { IsDigit(c) || 'a' <= c <= 'f' || 'A' <= c <= 'F' }

  predicate IsTokenChar(c: char) { IsDigit(c) || 'a' <= c <= 'z' || 'A' <= c <= 'Z' || c in "!#$%&'*+.^_`|~-" }

  predicate IsPrintable(c: char) { ' ' <= c <= '~' }

  predicate IsFieldChar(c: char) { (c >= ' ' || c == '\t') && c != 127 as char }

  predicate All(s: string, p: char -> bool) { forall c | c in s :: p(c) }

  function Lower(s: string): string {
    seq(|s|, i requires 0 <= i < |s| => if 'A' <= s[i] <= 'Z' then (s[i] as int + 32) as char else s[i])
  }

  predicate IsBlank(c: char) { c == ' ' || c == '\t' }

  function Strip(s: string): string {
    if s != [] && IsBlank(s[0]) then Strip(s[1..])
    else if s != [] && IsBlank(s[|s| - 1]) then Strip(s[..|s| - 1])
    else s
  }

  function DigitValue(c: char): nat
    requires IsHex(c)
  {
    if IsDigit(c) then c as int - '0' as int
    else if c >= 'a' then c as int - 'a' as int + 10
    else c as int - 'A' as int + 10
  }

  function Number(s: string, base: nat): nat
    requires All(s, IsHex)
  {
    if s == [] then 0 else Number(s[..|s| - 1], base) * base + DigitValue(s[|s| - 1])
  }

  // ---- the head of the response

  function Status(line: string): Option<nat> {
    if |line| < 14 || line[..7] != "HTTP/1." || line[7] !in "01" || line[8] != ' ' || line[|line| - 2..] != CRLF
      then None
    else
      var code, reason := line[9..12], line[12..|line| - 2];
      if !('1' <= code[0] <= '5') || !All(code, IsDigit) then None
      else if reason != [] && (reason[0] != ' ' || !All(reason, IsPrintable)) then None
      else Some(Number(code, 10))
  }

  datatype Field = Field(key: string, value: string)

  function FieldOf(line: string): Option<Field>
    requires |line| >= 2
  {
    var p := Partition(line[..|line| - 2], ':');
    if !p.found || p.before == [] || !All(p.before, IsTokenChar) || !All(p.after, IsFieldChar) then None
    else Some(Field(Lower(p.before), Strip(p.after)))
  }

  /** Cookies and challenges are dropped, lists are joined, and any other field may come once. */
  function AddField(headers: map<string, string>, f: Field): Option<map<string, string>> {
    if f.key in DISCARDED then Some(headers)
    else if f.key !in headers then Some(headers[f.key := f.value])
    else if f.key in LISTS then Some(headers[f.key := headers[f.key] + ", " + f.value])
    else None
  }

  datatype Block = Block(headers: map<string, string>, total: nat, rest: string)

  datatype Head = Head(status: nat, headers: map<string, string>, total: nat, rest: string)

  /** The fields from number `index` on, with `total` bytes of the head already read. */
  function HeadersFrom(s: string, index: nat, total: nat, headers: map<string, string>): Option<Block>
    requires index <= MAX_HEADER_COUNT
    decreases MAX_HEADER_COUNT - index
  {
    var read := Line(s, MAX_HEADER_LINE_BYTES);
    if read.None? then None else
      var (line, rest) := read.value;
      var total' := total + |line|;
      if total' > MAX_HEADER_BYTES then None
      else if line == CRLF then Some(Block(headers, total', rest))
      else if index == MAX_HEADER_COUNT then None
      else
        var field := FieldOf(line);
        if field.None? then None else
          var headers' := AddField(headers, field.value);
          if headers'.None? then None else HeadersFrom(rest, index + 1, total', headers'.value)
  }

  /** Interim responses are skipped, up to five heads in all. */
  function HeadFrom(s: string, seen: nat, total: nat): Option<Head>
    requires seen <= MAX_STATUSES
    decreases MAX_STATUSES - seen
  {
    if seen == MAX_STATUSES then None else
      var read := Line(s, MAX_HEADER_LINE_BYTES);
      if read.None? then None else
        var (line, rest) := read.value;
        var status := Status(line);
        if status.None? then None else
          var block := HeadersFrom(rest, 0, total + |line|, map[]);
          if block.None? || status.value == 101 then None
          else if status.value >= 200
          then Some(Head(status.value, block.value.headers, block.value.total, block.value.rest))
          else HeadFrom(block.value.rest, seen + 1, block.value.total)
  }

  function ResponseHeaders(s: string): Option<Head> { HeadFrom(s, 0, 0) }

  // ---- framing and body

  datatype Framing = Length(n: nat) | Chunked | Close

  function FramingOf(headers: map<string, string>): Option<Framing> {
    var transfer := if "transfer-encoding" in headers then Lower(headers["transfer-encoding"]) else "";
    if "transfer-encoding" in headers && (transfer != "chunked" || "content-length" in headers) then None
    else if "trailer" in headers then None
    else if "content-length" in headers then
      var length := headers["content-length"];
      if !(1 <= |length| <= 20) || !All(length, IsDigit) then None else Some(Length(Number(length, 10)))
    else Some(if transfer != "" then Chunked else Close)
  }

  datatype Body = Body(bytes: string, wire: nat, rest: string)

  function ChunkSize(line: string): Option<nat>
    requires |line| >= 2
  {
    var p := Partition(line[..|line| - 2], ';');
    if !(1 <= |p.before| <= 16) || !All(p.before, IsHex) || !All(p.after, IsPrintable) then None
    else Some(Number(p.before, 16))
  }

  /** Chunk number `k` and what follows, after `result` was decoded from `wire` bytes. */
  function ChunksFrom(s: string, k: nat, result: string, wire: nat): Option<Body>
    requires k <= MAX_CHUNKS
    decreases MAX_CHUNKS - k
  {
    if k == MAX_CHUNKS then None else
      var read := Line(s, MAX_CHUNK_LINE_BYTES);
      if read.None? then None else
        var (line, afterLine) := read.value;
        var size := ChunkSize(line);
        if size.None? then None
        else if size.value == 0 then
          var last := Line(afterLine, MAX_HEADER_LINE_BYTES);
          if last.None? || last.value.0 != CRLF then None else Some(Body(result, wire + |line| + 2, last.value.1))
        else if |result| + size.value > MAX_RESOURCE_BYTES then None
        else
          var data := Exact(afterLine, size.value);
          if data.None? then None else
            var end := Exact(data.value.1, 2);
            if end.None? || end.value.0 != CRLF then None
            else ChunksFrom(end.value.1, k + 1, result + data.value.0, wire + |line| + size.value + 2)
  }

  function ReadBody(s: string, headers: map<string, string>, isHead: bool, status: nat): Option<Body> {
    var framing := FramingOf(headers);
    if framing.None? then None
    else if isHead || status in {204, 205, 304} then Some(Body([], 0, s))
    else
      match framing.value
      case Length(n) =>
        if n > MAX_RESOURCE_BYTES then None else
          var data := Exact(s, n);
          if data.None? then None else Some(Body(data.value.0, n, data.value.1))
      case Chunked => ChunksFrom(s, 0, [], 0)
      case Close => if |s| > MAX_RESOURCE_BYTES then None else Some(Body(s, |s|, []))
  }

  // ---- the reader

  /** The connection: `rest` is what the peer sends from here to the end of the stream. */
  class Reader {
    var rest: string

    constructor (data: string)
      ensures rest == data
    {
      rest := data;
    }

    method ReadLine(maximum: nat) returns (line: Option<string>)
      modifies this
      ensures var spec := Line(old(rest), maximum);
              if spec.None? then line.None?
              else line == Some(spec.value.0) && rest == spec.value.1 && |spec.value.0| >= 2
    {
      var n := 0;
      while n < |rest| && rest[n] != '\n'
        invariant 0 <= n <= |rest| && rest == old(rest) && LineEnd(rest) == n + LineEnd(rest[n..])
      {
        n := n + 1;
      }
      if n < |rest| { n := n + 1; }
      var text := rest[..n];
      rest := rest[n..];
      if text == [] || |text| > maximum || |text| < 2 || text[|text| - 2..] != CRLF { return None; }
      line := Some(text);
    }

    method ReadExact(size: nat) returns (data: Option<string>)
      modifies this
      ensures var spec := Exact(old(rest), size);
              if spec.None? then data.None? else data == Some(spec.value.0) && rest == spec.value.1
    {
      if |rest| < size { return None; }
      data := Some(rest[..size]);
      rest := rest[size..];
    }

    method ResponseHead() returns (head: Option<(nat, map<string, string>, nat)>)
      modifies this
      ensures var spec := ResponseHeaders(old(rest));
              if spec.None? then head.None?
              else head == Some((spec.value.status, spec.value.headers, spec.value.total)) && rest == spec.value.rest
    {
      hide Line, Status, FieldOf, AddField, HeadersFrom;
      var total: nat := 0;
      for seen := 0 to MAX_STATUSES
        invariant ResponseHeaders(old(rest)) == HeadFrom(rest, seen, total)
      {
        var read := ReadLine(MAX_HEADER_LINE_BYTES);
        if read.None? { return None; }
        total := total + |read.value|;
        var status := Status(read.value);
        if status.None? { return None; }
        var block := HeaderBlock(total);
        if block.None? || status.value == 101 { return None; }
        if status.value >= 200 { return Some((status.value, block.value.0, block.value.1)); }
        total := block.value.1;
      }
      return None;
    }

    /** The fields of one head and its blank line. */
    method HeaderBlock(start: nat) returns (block: Option<(map<string, string>, nat)>)
      modifies this
      ensures var spec := HeadersFrom(old(rest), 0, start, map[]);
              if spec.None? then block.None?
              else block == Some((spec.value.headers, spec.value.total)) && rest == spec.value.rest
    {
      hide Line, FieldOf, AddField;
      var headers: map<string, string> := map[];
      var total: nat := start;
      var index: nat := 0;
      while true
        invariant index <= MAX_HEADER_COUNT
        invariant HeadersFrom(old(rest), 0, start, map[]) == HeadersFrom(rest, index, total, headers)
        decreases MAX_HEADER_COUNT - index
      {
        var read := ReadLine(MAX_HEADER_LINE_BYTES);
        if read.None? { return None; }
        total := total + |read.value|;
        if total > MAX_HEADER_BYTES { return None; }
        if read.value == CRLF { return Some((headers, total)); }
        if index == MAX_HEADER_COUNT { return None; }
        var field := FieldOf(read.value);
        if field.None? { return None; }
        var added := AddField(headers, field.value);
        if added.None? { return None; }
        headers := added.value;
        index := index + 1;
      }
    }

    method BodyOf(headers: map<string, string>, isHead: bool, status: nat) returns (body: Option<(string, nat)>)
      modifies this
      ensures var spec := ReadBody(old(rest), headers, isHead, status);
              if spec.None? then body.None?
              else body == Some((spec.value.bytes, spec.value.wire)) && rest == spec.value.rest
    {
      hide FramingOf, ChunksFrom;
      var framing := FramingOf(headers);
      if framing.None? { return None; }
      if isHead || status in {204, 205, 304} { return Some(([], 0)); }
      match framing.value {
        case Length(n) =>
          if n > MAX_RESOURCE_BYTES { return None; }
          var data := ReadExact(n);
          if data.None? { return None; }
          return Some((data.value, n));
        case Chunked =>
          body := ReadChunks();
        case Close =>
          body := ReadToEnd();
      }
    }

    method ReadChunks() returns (body: Option<(string, nat)>)
      modifies this
      ensures var spec := ChunksFrom(old(rest), 0, [], 0);
              if spec.None? then body.None?
              else body == Some((spec.value.bytes, spec.value.wire)) && rest == spec.value.rest
    {
      hide Line, ChunkSize;
      var result: string, wire: nat := "", 0;
      for k := 0 to MAX_CHUNKS
        invariant ChunksFrom(old(rest), 0, [], 0) == ChunksFrom(rest, k, result, wire)
      {
        var read := ReadLine(MAX_CHUNK_LINE_BYTES);
        if read.None? { return None; }
        var size := ChunkSize(read.value);
        if size.None? { return None; }
        wire := wire + |read.value|;
        if size.value == 0 {
          var last := ReadLine(MAX_HEADER_LINE_BYTES);
          if last.None? || last.value != CRLF { return None; }
          return Some((result, wire + 2));
        }
        if |result| + size.value > MAX_RESOURCE_BYTES { return None; }
        var data := ReadExact(size.value);
        if data.None? { return None; }
        result := result + data.value;
        var end := ReadExact(2);
        if end.None? || end.value != CRLF { return None; }
        wire := wire + size.value + 2;
      }
      return None;
    }

    /** However the transport cuts the stream into reads. */
    method ReadToEnd() returns (body: Option<(string, nat)>)
      modifies this
      ensures if |old(rest)| > MAX_RESOURCE_BYTES then body.None?
              else body == Some((old(rest), |old(rest)|)) && rest == []
    {
      var result := "";
      while rest != []
        invariant result + rest == old(rest) && |result| <= MAX_RESOURCE_BYTES
        decreases |rest|
      {
        var n: nat :| 0 < n <= |rest| && n <= READ_BYTES;
        var chunk := rest[..n];
        rest := rest[n..];
        if |result| + |chunk| > MAX_RESOURCE_BYTES { return None; }
        result := result + chunk;
      }
      assert result + rest == result;
      body := Some((result, |result|));
    }
  }
}
