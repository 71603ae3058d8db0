/** What an accepted response means: every byte is accounted for, and chunked bodies are exactly the encodings. */
module HttpLaws {
  import opened Prelude
  import opened HttpReader

  // ---- lines and separators

  lemma {:induction false} LineEndFirst(text: string, rest: string)
    requires '\n' !in text
    ensures LineEnd(text + CRLF + rest) == |text| + 2
  {
    var s := text + CRLF + rest;
    if text == [] {
      assert s == CRLF + rest && s[1..] == ['\n'] + rest;
    } else {
      assert s[1..] == text[1..] + CRLF + rest;
      LineEndFirst(text[1..], rest);
    }
  }

  lemma {:induction false} LineEndMeans(s: string)
    ensures forall k | 0 <= k < LineEnd(s) - 1 :: s[k] != '\n'
    ensures LineEnd(s) > 0 && s[LineEnd(s) - 1] != '\n' ==> LineEnd(s) == |s|
  {
    if s != [] && s[0] != '\n' {
      LineEndMeans(s[1..]);
      forall k | 0 <= k < LineEnd(s) - 1 ensures s[k] != '\n' { if k > 0 { assert s[1..][k - 1] == s[k]; } }
    }
  }

  lemma LineReads(text: string, rest: string, maximum: nat)
    requires '\n' !in text && |text| + 2 <= maximum
    ensures Line(text + CRLF + rest, maximum) == Some((text + CRLF, rest))
  {
    var s := text + CRLF + rest;
    LineEndFirst(text, rest);
    assert s[..|text| + 2] == text + CRLF && s[|text| + 2..] == rest;
    assert (text + CRLF)[|text|..] == CRLF;
  }

  lemma LineSplits(s: string, maximum: nat)
    requires Line(s, maximum).Some?
    ensures var (line, rest) := Line(s, maximum).value;
            && s == line + rest && 2 <= |line| <= maximum && line == line[..|line| - 2] + CRLF
               && '\n' !in line[..|line| - 2]
  {
    LineEndMeans(s);
    var n := LineEnd(s);
    assert s == s[..n] + s[n..];
    var line := s[..n];
    assert line == line[..n - 2] + line[n - 2..];
    var text := line[..n - 2];
    forall k | 0 <= k < |text| ensures text[k] != '\n' { assert text[k] == s[k]; }
  }

  function Joined(p: Split, separator: char): string { p.before + (if p.found then [separator] + p.after else []) }

  lemma {:induction false} PartitionSplits(s: string, separator: char)
    ensures var p := Partition(s, separator);
            s == Joined(p, separator) && separator !in p.before && (!p.found ==> p.after == [])
  {
    if s != [] {
      if s[0] == separator {
        assert s == [] + ([separator] + s[1..]);
      } else {
        PartitionSplits(s[1..], separator);
        assert s == [s[0]] + s[1..];
      }
    }
  }

  lemma {:induction false} PartitionFinds(before: string, separator: char, after: string)
    requires separator !in before
    ensures Partition(before + [separator] + after, separator) == Split(before, true, after)
    ensures Partition(before, separator) == Split(before, false, [])
  {
    var s := before + [separator] + after;
    if before == [] {
      assert s == [separator] + after;
    } else {
      assert s[1..] == before[1..] + [separator] + after;
      PartitionFinds(before[1..], separator, after);
      assert before == [before[0]] + before[1..];
    }
  }

  // ---- the head

  lemma {:induction false} BlockAccounts(s: string, index: nat, total: nat, headers: map<string, string>)
    requires index <= MAX_HEADER_COUNT && HeadersFrom(s, index, total, headers).Some?
    ensures var b := HeadersFrom(s, index, total, headers).value;
            total <= b.total <= MAX_HEADER_BYTES && b.total - total + |b.rest| == |s| && b.rest == s[b.total - total..]
    decreases MAX_HEADER_COUNT - index
  {
    hide Line, FieldOf, AddField;
    LineSplits(s, MAX_HEADER_LINE_BYTES);
    var (line, rest) := Line(s, MAX_HEADER_LINE_BYTES).value;
    if line != CRLF {
      var headers' := AddField(headers, FieldOf(line).value).value;
      BlockAccounts(rest, index + 1, total + |line|, headers');
    }
  }

  lemma {:induction false} HeadAccounts(s: string, seen: nat, total: nat)
    requires seen <= MAX_STATUSES && HeadFrom(s, seen, total).Some?
    ensures var h := HeadFrom(s, seen, total).value;
            && total <= h.total <= MAX_HEADER_BYTES && h.total - total + |h.rest| == |s|
               && h.rest == s[h.total - total..]
            && h.status >= 200
    decreases MAX_STATUSES - seen
  {
    hide Line, Status, HeadersFrom;
    LineSplits(s, MAX_HEADER_LINE_BYTES);
    var (line, rest) := Line(s, MAX_HEADER_LINE_BYTES).value;
    BlockAccounts(rest, 0, total + |line|, map[]);
    var b := HeadersFrom(rest, 0, total + |line|, map[]).value;
    if Status(line).value < 200 { HeadAccounts(b.rest, seen + 1, b.total); }
  }

  // ---- fields

  /** The fields of a head in order, whatever they are. */
  function FieldsFrom(s: string, index: nat, total: nat): Option<(seq<Field>, nat, string)>
    requires index <= MAX_HEADER_COUNT
    decreases MAX_HEADER_COUNT - index
  {
    var read := Line(s, MAX_HEADER_LINE_BYTES);
    if read.None? then None else
      var (line, rest) := read.value;
      var total' := total + |line|;
      if total' > MAX_HEADER_BYTES then None
      else if line == CRLF then Some(([], total', rest))
      else if index == MAX_HEADER_COUNT then None
      else
        var field, others := FieldOf(line), FieldsFrom(rest, index + 1, total');
        if field.None? || others.None? then None
        else Some(([field.value] + others.value.0, others.value.1, others.value.2))
  }

  function CollectFrom(headers: map<string, string>, fields: seq<Field>): Option<map<string, string>>
    decreases |fields|
  {
    if fields == [] then Some(headers) else
      var added := AddField(headers, fields[0]);
      if added.None? then None else CollectFrom(added.value, fields[1..])
  }

  lemma {:induction false} HeadersCollectFields(s: string, index: nat, total: nat, headers: map<string, string>)
    requires index <= MAX_HEADER_COUNT && FieldsFrom(s, index, total).Some?
    ensures var (fields, end, rest) := FieldsFrom(s, index, total).value;
            var all := CollectFrom(headers, fields);
            HeadersFrom(s, index, total, headers) == if all.None? then None else Some(Block(all.value, end, rest))
    decreases MAX_HEADER_COUNT - index
  {
    hide Line, FieldOf, AddField;
    LineSplits(s, MAX_HEADER_LINE_BYTES);
    var (line, rest) := Line(s, MAX_HEADER_LINE_BYTES).value;
    if line != CRLF {
      var f := FieldOf(line).value;
      var (others, _, _) := FieldsFrom(rest, index + 1, total + |line|).value;
      assert ([f] + others)[1..] == others;
      if AddField(headers, f).Some? {
        HeadersCollectFields(rest, index + 1, total + |line|, AddField(headers, f).value);
      }
    }
  }

  function Values(fields: seq<Field>, key: string): seq<string> {
    if fields == [] then [] else (if fields[0].key == key then [fields[0].value] else []) + Values(fields[1..], key)
  }

  function Listed(values: seq<string>): string {
    if values == [] then ""
    else if |values| == 1 then values[0]
    else Listed(values[..|values| - 1]) + ", " + values[|values| - 1]
  }

  lemma {:induction false} ValuesSnoc(fields: seq<Field>, f: Field, key: string)
    ensures Values(fields + [f], key) == Values(fields, key) + (if f.key == key then [f.value] else [])
  {
    if fields == [] {
      assert [] + [f] == [f] && [f][1..] == [];
    } else {
      assert (fields + [f])[1..] == fields[1..] + [f];
      ValuesSnoc(fields[1..], f, key);
    }
  }

  ghost predicate HeldFor(headers: map<string, string>, key: string, values: seq<string>) {
    && (key in headers <==> key !in DISCARDED && values != [])
    && (key in headers ==> headers[key] == Listed(values) && (key in LISTS || |values| == 1))
  }

  /** The headers hold exactly the kept fields: the single ones as they came, the lists joined in order. */
  ghost predicate Held(headers: map<string, string>, fields: seq<Field>) {
    forall key: string :: HeldFor(headers, key, Values(fields, key))
  }

  lemma AddHolds(headers: map<string, string>, fields: seq<Field>, f: Field)
    requires Held(headers, fields)
    ensures AddField(headers, f).Some? ==> Held(AddField(headers, f).value, fields + [f])
    ensures AddField(headers, f).None? ==> f.key !in DISCARDED && f.key !in LISTS && |Values(fields + [f], f.key)| > 1
  {
    hide Values, Listed;
    assert HeldFor(headers, f.key, Values(fields, f.key));
    ValuesSnoc(fields, f, f.key);
    ListedSnoc(Values(fields, f.key), f.value);
    if AddField(headers, f).Some? {
      var headers' := AddField(headers, f).value;
      forall key: string ensures HeldFor(headers', key, Values(fields + [f], key)) {
        ValuesSnoc(fields, f, key);
        assert HeldFor(headers, key, Values(fields, key));
        if key != f.key { assert Values(fields, key) + [] == Values(fields, key); }
      }
    }
  }

  lemma ListedSnoc(values: seq<string>, value: string)
    ensures Listed(values + [value]) == if values == [] then value else Listed(values) + ", " + value
  {
    assert (values + [value])[..|values|] == values;
  }

  lemma {:induction false} CollectHolds(headers: map<string, string>, done: seq<Field>, fields: seq<Field>)
    requires Held(headers, done)
    ensures CollectFrom(headers, fields).Some? ==> Held(CollectFrom(headers, fields).value, done + fields)
    ensures CollectFrom(headers, fields).None? ==> exists key ::
            key !in DISCARDED && key !in LISTS && |Values(done + fields, key)| > 1
    decreases |fields|
  {
    hide Held, AddField;
    if fields == [] {
      assert done + [] == done;
    } else {
      var f := fields[0];
      AddHolds(headers, done, f);
      assert done + fields == (done + [f]) + fields[1..];
      if AddField(headers, f).Some? {
        CollectHolds(AddField(headers, f).value, done + [f], fields[1..]);
      } else {
        MoreValues(done + [f], fields[1..], f.key);
      }
    }
  }

  lemma {:induction false} MoreValues(done: seq<Field>, fields: seq<Field>, key: string)
    ensures |Values(done + fields, key)| >= |Values(done, key)|
    decreases |fields|
  {
    if fields == [] {
      assert done + [] == done;
    } else {
      ValuesSnoc(done, fields[0], key);
      assert done + fields == (done + [fields[0]]) + fields[1..];
      MoreValues(done + [fields[0]], fields[1..], key);
    }
  }

  /**
   * A well-formed block of fields is accepted exactly when no field outside the lists comes twice, and then the
   * headers hold its fields and nothing else. In particular at most one length and one coding frame the body.
   */
  lemma HeadersMeanTheirFields(s: string, start: nat)
    requires FieldsFrom(s, 0, start).Some?
    ensures var (fields, end, rest) := FieldsFrom(s, 0, start).value;
            var read := HeadersFrom(s, 0, start, map[]);
            && (read.Some? <==> forall key :: key !in DISCARDED && key !in LISTS ==> |Values(fields, key)| <= 1)
            && (read.Some? ==> Held(read.value.headers, fields) && read.value.total == end && read.value.rest == rest)
  {
    var (fields, end, rest) := FieldsFrom(s, 0, start).value;
    hide FieldsFrom, HeadersFrom, CollectFrom;
    HeadersCollectFields(s, 0, start, map[]);
    assert Held(map[], []);
    CollectHolds(map[], [], fields);
    assert [] + fields == fields;
    var read := HeadersFrom(s, 0, start, map[]);
    if read.Some? {
      forall key | key !in DISCARDED && key !in LISTS ensures |Values(fields, key)| <= 1 {
        assert HeldFor(read.value.headers, key, Values(fields, key));
      }
    }
  }

  /** Nothing else is accepted: an accepted block is a well-formed one. */
  lemma {:induction false} AcceptedHeadersAreFields(s: string, index: nat, total: nat, headers: map<string, string>)
    requires index <= MAX_HEADER_COUNT && HeadersFrom(s, index, total, headers).Some?
    ensures FieldsFrom(s, index, total).Some?
    decreases MAX_HEADER_COUNT - index
  {
    hide Line, FieldOf, AddField;
    LineSplits(s, MAX_HEADER_LINE_BYTES);
    var (line, rest) := Line(s, MAX_HEADER_LINE_BYTES).value;
    if line != CRLF {
      AcceptedHeadersAreFields(rest, index + 1, total + |line|, AddField(headers, FieldOf(line).value).value);
    }
  }

  /**
   * A body is framed one way only: by the single length field, or by the single coding field when it says chunked, or
   * by the end of the stream when there is neither.
   */
  lemma FramingIsUnambiguous(headers: map<string, string>, fields: seq<Field>)
    requires Held(headers, fields)
    ensures var lengths, codings := Values(fields, "content-length"), Values(fields, "transfer-encoding");
            var framing := FramingOf(headers);
            && (framing == Some(Close) <==> lengths == [] && codings == [] && Values(fields, "trailer") == [])
            && (framing == Some(Chunked) <==>
                lengths == [] && |codings| == 1 && Lower(codings[0]) == "chunked" && Values(fields, "trailer") == [])
            && (framing.Some? && framing.value.Length? ==>
                |lengths| == 1 && codings == [] && All(lengths[0], IsDigit)
                  && framing.value.n == Number(lengths[0], 10))
            && (lengths != [] && codings != [] ==> framing.None?)
  {
    hide Lower, Number, Held, Values;
    SingleField(headers, fields, "content-length");
    SingleField(headers, fields, "transfer-encoding");
    SingleField(headers, fields, "trailer");
  }

  lemma SingleField(headers: map<string, string>, fields: seq<Field>, key: string)
    requires Held(headers, fields) && key in {"content-length", "transfer-encoding", "trailer"}
    ensures var values := Values(fields, key);
            (key in headers <==> values != []) && (key in headers ==> |values| == 1 && headers[key] == values[0])
  {
    hide Values;
    assert key !in DISCARDED && key !in LISTS;
    assert HeldFor(headers, key, Values(fields, key));
  }
}
