/**
 * Chunked bodies (section 7.1 of RFC 9112): the reader accepts exactly the encodings, and reads back what they hold.
 */
module HttpChunks {
  import opened Prelude
  import opened HttpReader
  import opened HttpLaws

  /** A chunk as it is sent: a hexadecimal size, an extension with its semicolon or nothing, and the data. */
  datatype Chunk = Chunk(size: string, extension: string, data: string)

  predicate WellFormed(c: Chunk) {
    && 1 <= |c.size| <= 16 && All(c.size, IsHex) && Number(c.size, 16) == |c.data|
    && (c.extension == [] || (c.extension[0] == ';' && All(c.extension[1..], IsPrintable)))
    && |c.size| + |c.extension| + 2 <= MAX_CHUNK_LINE_BYTES
  }

  function SizeLine(c: Chunk): string { c.size + c.extension + CRLF }

  function Encode(chunks: seq<Chunk>, last: Chunk): string {
    if chunks == [] then SizeLine(last) + CRLF
    else SizeLine(chunks[0]) + chunks[0].data + CRLF + Encode(chunks[1..], last)
  }

  function Decoded(chunks: seq<Chunk>): string {
    if chunks == [] then [] else chunks[0].data + Decoded(chunks[1..])
  }

  ghost predicate AllWellFormed(chunks: seq<Chunk>, last: Chunk) {
    && (forall c | c in chunks :: WellFormed(c) && c.data != [])
    && WellFormed(last) && last.data == []
  }

  // ---- one size line

  /** Hex digits hold neither a semicolon nor a line feed. */
  lemma SizeIsOneWord(c: Chunk)
    requires WellFormed(c)
    ensures ';' !in c.size && '\n' !in c.size && '\n' !in c.extension
  {
    assert !IsHex(';') && !IsHex('\n') && !IsPrintable('\n');
    hide IsHex, IsPrintable, Number;
    if c.extension != [] { assert c.extension == [c.extension[0]] + c.extension[1..]; }
  }

  lemma SizeText(c: Chunk)
    requires WellFormed(c)
    ensures '\n' !in c.size + c.extension && |SizeLine(c)| <= MAX_CHUNK_LINE_BYTES
    ensures SizeLine(c)[..|SizeLine(c)| - 2] == c.size + c.extension
    ensures ChunkSize(SizeLine(c)) == Some(|c.data|)
  {
    hide IsHex, IsPrintable, Number, Partition;
    var text := c.size + c.extension;
    SizeIsOneWord(c);
    assert SizeLine(c)[..|SizeLine(c)| - 2] == text;
    if c.extension == [] {
      PartitionFinds(c.size, ';', []);
      assert text == c.size;
    } else {
      PartitionFinds(c.size, ';', c.extension[1..]);
      assert text == c.size + [';'] + c.extension[1..];
    }
  }

  lemma SizeLineParts(line: string, data: string) returns (c: Chunk)
    requires 2 <= |line| <= MAX_CHUNK_LINE_BYTES && line == line[..|line| - 2] + CRLF && ChunkSize(line) == Some(|data|)
    ensures WellFormed(c) && SizeLine(c) == line && c.data == data
  {
    var text := line[..|line| - 2];
    PartitionSplits(text, ';');
    var p := Partition(text, ';');
    c := Chunk(p.before, if p.found then [';'] + p.after else [], data);
    assert p.found ==> c.extension[1..] == p.after;
    assert c.size + c.extension == text;
  }

  // ---- every encoding is read back

  lemma ReadOneChunk(c: Chunk, more: string)
    requires WellFormed(c)
    ensures var s := SizeLine(c) + c.data + CRLF + more;
            && Line(s, MAX_CHUNK_LINE_BYTES) == Some((SizeLine(c), c.data + CRLF + more))
            && Exact(c.data + CRLF + more, |c.data|) == Some((c.data, CRLF + more))
            && Exact(CRLF + more, 2) == Some((CRLF, more))
  {
    hide Line, WellFormed;
    SizeText(c);
    assert SizeLine(c) + c.data + CRLF + more == c.size + c.extension + CRLF + (c.data + CRLF + more);
    LineReads(c.size + c.extension, c.data + CRLF + more, MAX_CHUNK_LINE_BYTES);
    assert (c.data + CRLF + more)[..|c.data|] == c.data && (c.data + CRLF + more)[|c.data|..] == CRLF + more;
    assert (CRLF + more)[..2] == CRLF && (CRLF + more)[2..] == more;
  }

  lemma ReadLastChunk(last: Chunk, later: string)
    requires WellFormed(last) && last.data == []
    ensures Line(SizeLine(last) + CRLF + later, MAX_CHUNK_LINE_BYTES) == Some((SizeLine(last), CRLF + later))
    ensures Line(CRLF + later, MAX_HEADER_LINE_BYTES) == Some((CRLF, later))
  {
    hide Line;
    SizeText(last);
    assert SizeLine(last) + CRLF + later == last.size + last.extension + CRLF + (CRLF + later);
    LineReads(last.size + last.extension, CRLF + later, MAX_CHUNK_LINE_BYTES);
    LineReads([], later, MAX_HEADER_LINE_BYTES);
    assert [] + CRLF + later == CRLF + later && [] + CRLF == CRLF;
  }

  lemma {:induction false} EncodedIsRead(chunks: seq<Chunk>, last: Chunk, later: string, k: nat, result: string,
                                         wire: nat)
    requires AllWellFormed(chunks, last) && k + |chunks| < MAX_CHUNKS
             && |result| + |Decoded(chunks)| <= MAX_RESOURCE_BYTES
    ensures ChunksFrom(Encode(chunks, last) + later, k, result, wire)
            == Some(Body(result + Decoded(chunks), wire + |Encode(chunks, last)|, later))
    decreases |chunks|
  {
    hide Line, ChunkSize, WellFormed, SizeLine, Exact;
    if chunks == [] {
      ReadLastChunk(last, later);
      SizeText(last);
      assert Encode(chunks, last) + later == SizeLine(last) + CRLF + later;
      assert result + [] == result;
    } else {
      var c, rest := chunks[0], chunks[1..];
      var more := Encode(rest, last) + later;
      assert c in chunks && AllWellFormed(rest, last);
      ReadOneChunk(c, more);
      SizeText(c);
      assert Encode(chunks, last) + later == SizeLine(c) + c.data + CRLF + more;
      EncodedIsRead(rest, last, later, k + 1, result + c.data, wire + |SizeLine(c)| + |c.data| + 2);
      assert result + c.data + Decoded(rest) == result + Decoded(chunks);
    }
  }

  // ---- everything read was an encoding

  lemma Regroup(a: string, b: string, c: string)
    ensures a + (b + c) == a + b + c
  {
  }

  lemma {:induction false} ReadIsEncoded(s: string, k: nat, result: string, wire: nat)
    returns (chunks: seq<Chunk>, last: Chunk)
    requires k <= MAX_CHUNKS && ChunksFrom(s, k, result, wire).Some?
    ensures var b := ChunksFrom(s, k, result, wire).value;
            && AllWellFormed(chunks, last) && k + |chunks| < MAX_CHUNKS
               && (chunks != [] ==> |b.bytes| <= MAX_RESOURCE_BYTES)
            && s == Encode(chunks, last) + b.rest && b.bytes == result + Decoded(chunks)
               && b.wire == wire + |Encode(chunks, last)|
    decreases MAX_CHUNKS - k
  {
    hide Line, ChunkSize, WellFormed, SizeLine;
    LineSplits(s, MAX_CHUNK_LINE_BYTES);
    var (line, afterLine) := Line(s, MAX_CHUNK_LINE_BYTES).value;
    var size := ChunkSize(line).value;
    if size == 0 {
      LineSplits(afterLine, MAX_HEADER_LINE_BYTES);
      last := SizeLineParts(line, []);
      chunks := [];
      assert s == line + CRLF + Line(afterLine, MAX_HEADER_LINE_BYTES).value.1;
      assert result + [] == result;
    } else {
      var (data, afterData) := Exact(afterLine, size).value;
      var rest := Exact(afterData, 2).value.1;
      var c := SizeLineParts(line, data);
      var others;
      others, last := ReadIsEncoded(rest, k + 1, result + data, wire + |line| + size + 2);
      chunks := [c] + others;
      assert chunks[1..] == others;
      var b := ChunksFrom(s, k, result, wire).value;
      hide ChunksFrom;
      assert s == line + data + CRLF + rest;
      assert Encode(chunks, last) == line + data + CRLF + Encode(others, last);
      assert Decoded(chunks) == data + Decoded(others);
      hide Encode, Decoded;
      Regroup(line + data + CRLF, Encode(others, last), b.rest);
      Regroup(result, data, Decoded(others));
    }
  }

  ghost predicate IsEncodingOf(s: string, b: Body) {
    exists chunks, last :: IsEncodingBy(s, b, chunks, last)
  }

  ghost predicate IsEncodingBy(s: string, b: Body, chunks: seq<Chunk>, last: Chunk) {
    && AllWellFormed(chunks, last) && |chunks| < MAX_CHUNKS && |Decoded(chunks)| <= MAX_RESOURCE_BYTES
    && s == Encode(chunks, last) + b.rest && b.bytes == Decoded(chunks) && b.wire == |Encode(chunks, last)|
  }

  /**
   * The reader accepts a chunked body exactly when it is some encoding of at most 4095 non-empty chunks and 2 MiB; it
   * then returns what the chunks hold, counts their bytes, and leaves what follows untouched.
   */
  lemma ChunkedBodiesAreEncodings(s: string, b: Body)
    ensures ChunksFrom(s, 0, [], 0) == Some(b) <==> IsEncodingOf(s, b)
  {
    hide AllWellFormed, ChunksFrom, Encode, Decoded;
    if ChunksFrom(s, 0, [], 0) == Some(b) {
      var chunks, last := ReadIsEncoded(s, 0, [], 0);
      assert [] + Decoded(chunks) == Decoded(chunks);
      assert |Decoded(chunks)| <= MAX_RESOURCE_BYTES by { if chunks == [] { DecodedNothing(); } }
      assert IsEncodingBy(s, b, chunks, last);
    }
    if IsEncodingOf(s, b) {
      var chunks, last :| IsEncodingBy(s, b, chunks, last);
      EncodedIsRead(chunks, last, b.rest, 0, [], 0);
      assert [] + Decoded(chunks) == Decoded(chunks);
    }
  }

  lemma DecodedNothing()
    ensures Decoded([]) == []
  {
  }

  // ---- a plain encoder

  function HexDigit(n: nat): (c: char)
    requires n < 16
    ensures IsHex(c) && DigitValue(c) == n
  {
    if n < 10 then ('0' as int + n) as char else ('a' as int + n - 10) as char
  }

  function Hex(n: nat): string {
    if n < 16 then [HexDigit(n)] else Hex(n / 16) + [HexDigit(n % 16)]
  }

  function Power16(d: nat): nat { if d == 0 then 1 else 16 * Power16(d - 1) }

  lemma {:induction false} HexReadsBack(n: nat, d: nat)
    requires d > 0 && n < Power16(d)
    ensures All(Hex(n), IsHex) && Number(Hex(n), 16) == n && 1 <= |Hex(n)| <= d
    decreases n
  {
    if n < 16 {
      assert Hex(n)[..0] == [];
    } else {
      assert d > 1 && n / 16 < Power16(d - 1);
      HexReadsBack(n / 16, d - 1);
      var front := Hex(n / 16);
      assert Hex(n)[..|Hex(n)| - 1] == front;
    }
  }

  function Plain(data: string): Chunk { Chunk(Hex(|data|), [], data) }

  function EncodeParts(parts: seq<string>): string {
    Encode(seq(|parts|, i requires 0 <= i < |parts| => Plain(parts[i])), Plain([]))
  }

  function Concat(parts: seq<string>): string { if parts == [] then [] else parts[0] + Concat(parts[1..]) }

  lemma PlainIsWellFormed(data: string)
    requires |data| <= MAX_RESOURCE_BYTES
    ensures WellFormed(Plain(data)) && Plain(data).data == data
  {
    assert Power16(6) == 16 * Power16(5) && Power16(5) == 16 * Power16(4) && Power16(4) == 16 * Power16(3)
      && Power16(3) == 16 * Power16(2)
           && Power16(2) == 16 * Power16(1) && Power16(1) == 16 * Power16(0);
    HexReadsBack(|data|, 6);
  }

  lemma PlainHolds(data: string)
    ensures Plain(data).data == data
  {
    hide Hex;
  }

  lemma {:induction false} PlainDecodes(parts: seq<string>)
    ensures Decoded(seq(|parts|, i requires 0 <= i < |parts| => Plain(parts[i]))) == Concat(parts)
    ensures forall p | p in parts :: |p| <= |Concat(parts)|
  {
    var chunks := seq(|parts|, i requires 0 <= i < |parts| => Plain(parts[i]));
    hide Plain;
    if parts != [] {
      assert Plain(parts[0]).data == parts[0] by { PlainHolds(parts[0]); }
      PlainDecodes(parts[1..]);
      assert chunks[1..] == seq(|parts| - 1, i requires 0 <= i < |parts| - 1 => Plain(parts[1..][i]));
    }
  }

  /** Any body of at most 2 MiB sent as at most 4095 non-empty chunks is read back, and later bytes stay unread. */
  lemma ChunkedRoundTrip(parts: seq<string>, later: string)
    requires |parts| < MAX_CHUNKS && |Concat(parts)| <= MAX_RESOURCE_BYTES && forall p | p in parts :: p != []
    ensures ChunksFrom(EncodeParts(parts) + later, 0, [], 0) == Some(Body(Concat(parts), |EncodeParts(parts)|, later))
  {
    hide WellFormed, Encode, ChunksFrom, Plain, Decoded, Concat;
    var chunks := seq(|parts|, i requires 0 <= i < |parts| => Plain(parts[i]));
    PlainDecodes(parts);
    PlainIsWellFormed([]);
    forall c | c in chunks ensures WellFormed(c) && c.data != [] {
      var i :| 0 <= i < |chunks| && chunks[i] == c;
      assert parts[i] in parts;
      PlainIsWellFormed(parts[i]);
    }
    EncodedIsRead(chunks, Plain([]), later, 0, [], 0);
    assert [] + Concat(parts) == Concat(parts);
  }

  // ---- whole responses

  /** What a chunked body takes beyond its content: a bounded line and a line end for each chunk, the last included. */
  lemma {:induction false} OverheadIsBounded(s: string, k: nat, result: string, wire: nat)
    requires k <= MAX_CHUNKS && ChunksFrom(s, k, result, wire).Some?
    ensures var b := ChunksFrom(s, k, result, wire).value;
            && |result| <= |b.bytes|
            && b.wire - wire <= |b.bytes| - |result| + (MAX_CHUNKS - k) * (MAX_CHUNK_LINE_BYTES + 2)
    decreases MAX_CHUNKS - k
  {
    hide ChunkSize;
    var (line, afterLine) := Line(s, MAX_CHUNK_LINE_BYTES).value;
    assert |line| <= MAX_CHUNK_LINE_BYTES;
    var size := ChunkSize(line).value;
    if size > 0 {
      hide Line;
      var (data, afterData) := Exact(afterLine, size).value;
      var rest := Exact(afterData, 2).value.1;
      OverheadIsBounded(rest, k + 1, result + data, wire + |line| + size + 2);
    }
  }

  /** For all three framings, and for responses without a body, the count returned is the number of bytes consumed. */
  lemma BodyAccounts(s: string, headers: map<string, string>, isHead: bool, status: nat)
    requires ReadBody(s, headers, isHead, status).Some?
    ensures var b := ReadBody(s, headers, isHead, status).value;
            && b.wire <= |s| && b.rest == s[b.wire..] && |b.bytes| <= MAX_RESOURCE_BYTES
            && |b.bytes| <= b.wire <= |b.bytes| + MAX_CHUNKS * (MAX_CHUNK_LINE_BYTES + 2)
  {
    hide ChunksFrom, Encode, AllWellFormed;
    var b := ReadBody(s, headers, isHead, status).value;
    if !isHead && status !in {204, 205, 304} && FramingOf(headers).value.Chunked? {
      ChunkedBodiesAreEncodings(s, b);
      var chunks, last :| IsEncodingBy(s, b, chunks, last);
      DecodedIsShorter(chunks, last);
      OverheadIsBounded(s, 0, [], 0);
    }
  }

  lemma {:induction false} DecodedIsShorter(chunks: seq<Chunk>, last: Chunk)
    ensures |Decoded(chunks)| <= |Encode(chunks, last)|
    decreases |chunks|
  {
    if chunks != [] { DecodedIsShorter(chunks[1..], last); }
  }

  /** Head and body together: what was counted is what was consumed, and the rest of the connection is untouched. */
  lemma ResponseAccounts(s: string, isHead: bool)
    requires ResponseHeaders(s).Some?
    requires var h := ResponseHeaders(s).value; ReadBody(h.rest, h.headers, isHead, h.status).Some?
    ensures var h := ResponseHeaders(s).value;
            var b := ReadBody(h.rest, h.headers, isHead, h.status).value;
            && h.total <= MAX_HEADER_BYTES && h.status >= 200 && |b.bytes| <= MAX_RESOURCE_BYTES
            && h.total + b.wire <= |s| && b.rest == s[h.total + b.wire..]
            && h.total + b.wire <= MAX_RECEIVED_HTTP_BYTES
  {
    hide HeadFrom, ReadBody;
    HeadAccounts(s, 0, 0);
    var h := ResponseHeaders(s).value;
    BodyAccounts(h.rest, h.headers, isHead, h.status);
    var b := ReadBody(h.rest, h.headers, isHead, h.status).value;
    assert s[h.total..][b.wire..] == s[h.total + b.wire..];
  }

  /** What a response is charged: its counted bytes, or what the transport received if that is more. */
  function Price(counted: nat, received: nat): nat { if counted > received then counted else received }

  /** Every accepted response is priced within the reservation made for it. */
  lemma PriceFitsItsReservation(s: string, isHead: bool, received: nat)
    requires ResponseHeaders(s).Some? && received <= MAX_RECEIVED_HTTP_BYTES
    requires var h := ResponseHeaders(s).value; ReadBody(h.rest, h.headers, isHead, h.status).Some?
    ensures var h := ResponseHeaders(s).value;
            var b := ReadBody(h.rest, h.headers, isHead, h.status).value;
            && h.total + b.wire <= Price(h.total + b.wire, received) <= MAX_RESOURCE_WIRE_BYTES
            && received <= Price(h.total + b.wire, received) && |b.bytes| <= Price(h.total + b.wire, received)
  {
    hide ResponseHeaders, ReadBody;
    ResponseAccounts(s, isHead);
    var h := ResponseHeaders(s).value;
    BodyAccounts(h.rest, h.headers, isHead, h.status);
  }
}
