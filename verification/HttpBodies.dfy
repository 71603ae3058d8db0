/** How a body is framed, exactly, and that bodies framed by their length or by the stream's end are read back. */
module HttpBodies {
  import opened Prelude
  import opened Numerals
  import opened HttpReader
  import opened HttpChunks

  const TRANSFER := "transfer-encoding"
  const LENGTH := "content-length"

  /** One to twenty decimal digits. */
  predicate IsLength(s: string) { 1 <= |s| <= 20 && forall c | c in s :: '0' <= c <= '9' }

  /** The coding "chunked", in letters of either case. */
  predicate IsChunked(s: string) { Lower(s) == "chunked" }

  /**
   * Any trailer is refused. With a transfer coding the body is framed by it if it is just "chunked" and no length is
   * given beside it; with a length of one to twenty digits, by the length; with neither, by the end of the stream. All
   * else is refused.
   */
  lemma FramedExactlyWhen(headers: map<string, string>)
    ensures var framing := FramingOf(headers);
            if "trailer" in headers then framing == None
            else if TRANSFER in headers then
              framing == if LENGTH !in headers && IsChunked(headers[TRANSFER]) then Some(Chunked) else None
            else if LENGTH in headers then
              if IsLength(headers[LENGTH]) then
                framing.Some? && framing.value.Length? && All(headers[LENGTH], IsHex)
                && framing.value.n == Number(headers[LENGTH], 10)
              else framing == None
            else framing == Some(Close)
  {
    if LENGTH in headers {
      var s := headers[LENGTH];
      assert All(s, IsDigit) <==> forall c | c in s :: '0' <= c <= '9';
      assert All(s, IsDigit) ==> All(s, IsHex);
    }
  }

  /** A number's decimal digits are read as that number. */
  lemma {:induction false} DecimalsReadBack(n: nat)
    ensures All(Digits(n), IsDigit) && All(Digits(n), IsHex) && Number(Digits(n), 10) == n
  {
    DigitsAreDigits(n);
    var s := Digits(n);
    var front, last := s[..|s| - 1], s[|s| - 1];
    if n < 10 {
      assert front == [] && Number(front, 10) == 0;
    } else {
      DecimalsReadBack(n / 10);
      assert front == Digits(n / 10);
    }
  }

  lemma {:induction false} DigitsAreFew(n: nat, k: nat, bound: nat)
    requires n < bound && bound == Power10(k) && k >= 1
    ensures |Digits(n)| <= k
    decreases k
  {
    if n >= 10 { DigitsAreFew(n / 10, k - 1, bound / 10); }
  }

  function Power10(k: nat): nat { if k == 0 then 1 else 10 * Power10(k - 1) }

  /** Any body within the limit, sent after its length in decimal, is read back, and what follows it stays unread. */
  lemma LengthRoundTrip(headers: map<string, string>, body: string, more: string, status: nat)
    requires |body| <= MAX_RESOURCE_BYTES && status !in {204, 205, 304}
    requires LENGTH in headers && headers[LENGTH] == Digits(|body|) && TRANSFER !in headers && "trailer" !in headers
    ensures ReadBody(body + more, headers, false, status) == Some(Body(body, |body|, more))
  {
    DecimalsReadBack(|body|);
    assert Power10(7) == 10000000 by {
      assert Power10(3) == 1000;
      assert Power10(5) == 100 * Power10(3);
      assert Power10(7) == 100 * Power10(5);
    }
    DigitsAreFew(|body|, 7, 10000000);
    DigitsAreDigits(|body|);
    FramedExactlyWhen(headers);
    hide FramingOf, Number, Digits;
    assert (body + more)[..|body|] == body && (body + more)[|body|..] == more;
  }

  /** Answers to HEAD and those of status 204, 205 and 304 have no body, whatever their fields say of one. */
  predicate HasNoBody(isHead: bool, status: nat) { isHead || status == 204 || status == 205 || status == 304 }

  /**
   * Which bodies are read: none where there can be none; with a length, exactly so many bytes, if they are there and
   * within the limit; in chunks, what the chunks encode; else all the rest of the stream, if it is within the limit.
   */
  lemma BodyReadExactly(s: string, headers: map<string, string>, isHead: bool, status: nat)
    ensures var body, framing := ReadBody(s, headers, isHead, status), FramingOf(headers);
            if framing.None? then body == None
            else if HasNoBody(isHead, status) then body == Some(Body([], 0, s))
            else match framing.value
              case Length(n) =>
                body == if n <= MAX_RESOURCE_BYTES && n <= |s| then Some(Body(s[..n], n, s[n..])) else None
              case Chunked => forall b :: body == Some(b) <==> IsEncodingOf(s, b)
              case Close => body == if |s| <= MAX_RESOURCE_BYTES then Some(Body(s, |s|, [])) else None
  {
    hide FramingOf, ChunksFrom, IsEncodingOf;
    var framing := FramingOf(headers);
    if framing.Some? && !HasNoBody(isHead, status) && framing.value.Chunked? {
      forall b ensures ReadBody(s, headers, isHead, status) == Some(b) <==> IsEncodingOf(s, b) {
        ChunkedBodiesAreEncodings(s, b);
      }
    }
  }
}
