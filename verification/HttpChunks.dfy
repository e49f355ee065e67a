/** Messages in chunked coding or with a Content-Length decode to their payload. */
module HttpChunks {
  import opened Text
  import opened HttpBody

  // ---- sizes ----

  predicate AllHex(s: string) {
    forall i | 0 <= i < |s| :: HexValue(s[i]) >= 0
  }

  /** The value of hexadecimal digits that follow the value `acc`. */
  function HexFrom(acc: nat, s: string): nat
    requires AllHex(s)
    decreases |s|
  {
    if s == "" then acc else HexFrom(16 * acc + HexValue(s[0]), s[1..])
  }

  function HexNumber(s: string): nat
    requires AllHex(s)
  {
    HexFrom(0, s)
  }

  lemma {:induction false} HexGrows(acc: nat, s: string)
    requires AllHex(s)
    ensures HexFrom(acc, s) >= acc
    decreases |s|
  {
    if s != "" { HexGrows(16 * acc + HexValue(s[0]), s[1..]); }
  }

  /** The largest size that passes the overflow test. */
  const MAX_SIZE: nat := ULLONG_MAX - 16

  predicate ReadingSize(s: Parser) {
    Valid(s) && s.phase.ChunkSize? && s.held == "" && s.length <= MAX_SIZE
  }

  lemma SizeDigitStep(s: Parser, ch: char)
    requires ReadingSize(s) && HexValue(ch) >= 0 && s.nread < HTTP_MAX_HEADER_SIZE
    ensures var n := 16 * s.length + HexValue(ch);
            if n <= MAX_SIZE then Step(s, ch) == s.(length := n, nread := s.nread + 1) && ReadingSize(Step(s, ch))
            else Step(s, ch).phase == Failed(InvalidContentLength)
  {}

  /** The accumulator holds the mathematical value exactly as long as that passes the test. */
  lemma {:induction false} SizeDigits(s: Parser, size: string)
    requires ReadingSize(s) && AllHex(size) && s.nread + |size| <= HTTP_MAX_HEADER_SIZE
    ensures var n := HexFrom(s.length, size);
            if n <= MAX_SIZE then Fold(s, size) == s.(length := n, nread := s.nread + |size|)
            else Fold(s, size).phase == Failed(InvalidContentLength)
    decreases |size|
  {
    hide Step, Valid;
    if size != "" {
      SizeDigitStep(s, size[0]);
      var n := 16 * s.length + HexValue(size[0]);
      if n <= MAX_SIZE {
        SizeDigits(Step(s, size[0]), size[1..]);
      } else {
        HexGrows(n, size[1..]);
        FailedStays(Step(s, size[0]), size[1..]);
      }
    }
  }

  predicate AtStart(s: Parser) {
    Valid(s) && s.phase.ChunkSizeStart? && s.held == ""
  }

  /** A size is read as the number it denotes, or refused when it is above the limit. */
  lemma SizeExactly(s: Parser, size: string)
    requires AtStart(s) && size != "" && AllHex(size) && |size| <= HTTP_MAX_HEADER_SIZE
    ensures var n := HexNumber(size);
            if n <= MAX_SIZE then Fold(s, size) == s.(phase := ChunkSize, length := n, nread := |size|)
            else Fold(s, size).phase == Failed(InvalidContentLength)
  {
    var t := Step(s, size[0]);
    assert t == s.(phase := ChunkSize, length := HexValue(size[0]), nread := 1);
    SizeDigits(t, size[1..]);
  }

  // ---- chunks ----

  const CRLF: string := "\r\n"

  /** A chunk: its size line with an extension that the parser skips, and its payload. */
  datatype Chunk = Chunk(size: string, ext: string, payload: string)

  predicate GoodLine(c: Chunk) {
    && c.size != "" && AllHex(c.size) && HexNumber(c.size) == |c.payload| <= MAX_SIZE
    && (c.ext == "" || c.ext[0] == ';' || c.ext[0] == ' ') && '\r' !in c.ext
    && |c.size| + |c.ext| + 2 <= HTTP_MAX_HEADER_SIZE
  }

  function SizeLine(c: Chunk): string {
    c.size + c.ext + CRLF
  }

  function EncodeChunk(c: Chunk): string {
    SizeLine(c) + c.payload + CRLF
  }

  lemma {:induction false} ExtensionSkipped(s: Parser, ext: string)
    requires s.phase.ChunkParameters? && '\r' !in ext && s.nread + |ext| <= HTTP_MAX_HEADER_SIZE
    ensures Fold(s, ext) == s.(nread := s.nread + |ext|)
    decreases |ext|
  {
    if ext != "" { ExtensionSkipped(Step(s, ext[0]), ext[1..]); }
  }

  lemma LineRead(s: Parser, c: Chunk)
    requires AtStart(s) && GoodLine(c)
    ensures Fold(s, SizeLine(c)) == s.(phase := if c.payload == "" then TrailerStart else ChunkData, length := |c.payload|, nread := 0)
  {
    hide Fold, HexFrom;
    FoldSplits(s, c.size + c.ext, CRLF);
    FoldSplits(s, c.size, c.ext);
    SizeExactly(s, c.size);
    var t := Fold(s, c.size);
    ExtensionRead(t, c.ext);
    LineEnd(Fold(t, c.ext));
  }

  lemma ExtensionRead(t: Parser, ext: string)
    requires t.phase.ChunkSize? && '\r' !in ext && (ext == "" || ext[0] == ';' || ext[0] == ' ') && t.nread + |ext| <= HTTP_MAX_HEADER_SIZE
    ensures Fold(t, ext) == t.(phase := if ext == "" then ChunkSize else ChunkParameters, nread := t.nread + |ext|)
  {
    if ext != "" {
      var u := Step(t, ext[0]);
      assert u == t.(phase := ChunkParameters, nread := t.nread + 1);
      ExtensionSkipped(u, ext[1..]);
    }
  }

  lemma LineEnd(t: Parser)
    requires (t.phase.ChunkSize? || t.phase.ChunkParameters?) && t.nread + 2 <= HTTP_MAX_HEADER_SIZE
    ensures Fold(t, CRLF) == t.(phase := if t.length == 0 then TrailerStart else ChunkData, nread := 0)
  {
    var u := Step(t, '\r');
    assert CRLF[1..] == "\n" && "\n"[1..] == "";
    assert Fold(t, CRLF) == Fold(u, "\n") == Fold(Step(u, '\n'), "");
  }

  lemma ChunkEnd(s: Parser)
    requires s.phase.ChunkDataAlmostDone?
    ensures Fold(s, CRLF) == s.(phase := ChunkSizeStart, body := s.body + s.held, held := "", nread := 0)
  {
    var u := Step(s, '\r');
    assert CRLF[1..] == "\n" && "\n"[1..] == "";
    assert Fold(s, CRLF) == Fold(u, "\n") == Fold(Step(u, '\n'), "");
  }

  /** A chunk adds its payload to the body and leaves the parser at the start of the next chunk. */
  lemma ChunkRead(s: Parser, c: Chunk)
    requires AtStart(s) && GoodLine(c) && c.payload != ""
    ensures Fold(s, EncodeChunk(c)) == s.(body := s.body + c.payload, length := 0)
    ensures AtStart(Fold(s, EncodeChunk(c)))
  {
    hide Fold, SizeLine;
    FoldSplits(s, SizeLine(c) + c.payload, CRLF);
    FoldSplits(s, SizeLine(c), c.payload);
    LineRead(s, c);
    var t := Fold(s, SizeLine(c));
    DataRead(t, c.payload);
    ChunkEnd(Fold(t, c.payload));
    assert "" + c.payload == c.payload;
  }

  function Encode(chunks: seq<Chunk>, last: Chunk): string {
    if chunks == [] then SizeLine(last) + CRLF else EncodeChunk(chunks[0]) + Encode(chunks[1..], last)
  }

  function Payloads(chunks: seq<Chunk>): string {
    if chunks == [] then "" else chunks[0].payload + Payloads(chunks[1..])
  }

  /** A list of non-empty chunks closed by a chunk of size zero, without trailers. */
  predicate GoodMessage(chunks: seq<Chunk>, last: Chunk) {
    GoodLine(last) && last.payload == "" && forall i | 0 <= i < |chunks| :: GoodLine(chunks[i]) && chunks[i].payload != ""
  }

  lemma LastRead(s: Parser, last: Chunk)
    requires AtStart(s) && GoodLine(last) && last.payload == ""
    ensures Fold(s, SizeLine(last) + CRLF) == s.(phase := Over, length := 0, nread := 2, completes := s.completes + 1)
  {
    hide SizeLine, GoodLine;
    FoldSplits(s, SizeLine(last), CRLF);
    LineRead(s, last);
    var t := Fold(s, SizeLine(last));
    var u := Step(t, '\r');
    assert CRLF[1..] == "\n" && "\n"[1..] == "";
    assert Fold(t, CRLF) == Fold(u, "\n") == Fold(Step(u, '\n'), "");
  }

  lemma {:induction false} MessageRead(s: Parser, chunks: seq<Chunk>, last: Chunk)
    requires AtStart(s) && GoodMessage(chunks, last)
    ensures Fold(s, Encode(chunks, last)) ==
              s.(phase := Over, length := 0, nread := 2, body := s.body + Payloads(chunks), completes := s.completes + 1)
    decreases |chunks|
  {
    hide Fold, SizeLine, GoodLine, AtStart, EncodeChunk;
    if chunks == [] {
      LastRead(s, last);
      assert s.body + "" == s.body;
    } else {
      var c, rest := chunks[0], chunks[1..];
      ChunkRead(s, c);
      var t := Fold(s, EncodeChunk(c));
      FoldSplits(s, EncodeChunk(c), Encode(rest, last));
      MessageRead(t, rest, last);
      assert s.body + c.payload + Payloads(rest) == s.body + (c.payload + Payloads(rest));
    }
  }

  /** Every chunked message, cut in any way, gives its payload and completes once. */
  lemma ChunkedDecodes(strict: bool, chunks: seq<Chunk>, last: Chunk, pieces: seq<string>)
    requires GoodMessage(chunks, last) && Joined(pieces) == Encode(chunks, last)
    requires forall i | 0 <= i < |pieces| :: pieces[i] != ""
    ensures ExecuteAll(Chunked(strict), pieces) == Parser(strict, Over, 0, 2, Payloads(chunks), "", 1)
  {
    hide Fold, GoodLine, Encode, EncodeChunk;
    MessageRead(Chunked(strict), chunks, last);
    EncodeSomething(chunks, last);
    CutsDoNotMatter(Chunked(strict), pieces);
    assert "" + Payloads(chunks) == Payloads(chunks) && Payloads(chunks) + "" == Payloads(chunks);
  }

  lemma EncodeSomething(chunks: seq<Chunk>, last: Chunk)
    ensures Encode(chunks, last) != ""
  {}

  // ---- Content-Length ----

  /** A body of the announced length, cut in any way, is delivered whole and completes once. */
  lemma IdentityDecodes(strict: bool, payload: string, pieces: seq<string>)
    requires 0 < |payload| < ULLONG_MAX && Joined(pieces) == payload
    requires forall i | 0 <= i < |pieces| :: pieces[i] != ""
    ensures ExecuteAll(Parser(strict, BodyIdentity, |payload|, 0, "", "", 0), pieces) == Parser(strict, Over, 0, 0, payload, "", 1)
  {
    hide Fold;
    var s := Parser(strict, BodyIdentity, |payload|, 0, "", "", 0);
    IdentityRead(s, payload);
    CutsDoNotMatter(s, pieces);
    assert "" + "" + payload == payload && payload + "" == payload;
  }

  /** One character of a Content-Length value after its first digit. */
  function LengthStep(n: nat, ch: char): Length {
    if ch == ' ' then Known(n)
    else if !IsDigit(ch) || (ULLONG_MAX - 10) / 10 < n then Invalid
    else Known(10 * n + (ch as int - '0' as int))
  }

  datatype Length = Known(n: nat) | Invalid

  function LengthFrom(n: nat, text: string): Length
    decreases |text|
  {
    if text == "" then Known(n)
    else match LengthStep(n, text[0]) case Invalid => Invalid case Known(m) => LengthFrom(m, text[1..])
  }

  /** The value of a Content-Length header, read digit by digit. */
  function ContentLength(text: string): Length {
    if text == "" || !IsDigit(text[0]) then Invalid else LengthFrom(text[0] as int - '0' as int, text[1..])
  }

  predicate DigitsAndSpaces(text: string) {
    forall i | 0 <= i < |text| :: IsDigit(text[i]) || text[i] == ' '
  }

  /** The number a value denotes when its spaces are dropped. */
  function DecFrom(n: nat, text: string): nat
    requires DigitsAndSpaces(text)
    decreases |text|
  {
    if text == "" then n else DecFrom(if text[0] == ' ' then n else 10 * n + (text[0] as int - '0' as int), text[1..])
  }

  lemma {:induction false} DecGrows(n: nat, text: string)
    requires DigitsAndSpaces(text)
    ensures DecFrom(n, text) >= n
    decreases |text|
  {
    if text != "" { DecGrows(if text[0] == ' ' then n else 10 * n + (text[0] as int - '0' as int), text[1..]); }
  }

  /** The largest length that passes the overflow test: one below the largest multiple of ten it lets through. */
  const MAX_LENGTH: nat := (ULLONG_MAX - 10) / 10 * 10 + 9

  /** A length is taken for exactly what it denotes or refused; it never becomes the "unknown" mark ULLONG_MAX. */
  lemma {:induction false} LengthExactly(n: nat, text: string)
    requires n <= MAX_LENGTH
    ensures LengthFrom(n, text) == if DigitsAndSpaces(text) && DecFrom(n, text) <= MAX_LENGTH then Known(DecFrom(n, text)) else Invalid
    ensures MAX_LENGTH < ULLONG_MAX
    decreases |text|
  {
    if text != "" {
      assert DigitsAndSpaces(text) <==> (IsDigit(text[0]) || text[0] == ' ') && DigitsAndSpaces(text[1..]) by {
        assert text == [text[0]] + text[1..];
      }
      if text[0] == ' ' {
        LengthExactly(n, text[1..]);
      } else if IsDigit(text[0]) {
        var m := 10 * n + (text[0] as int - '0' as int);
        if m <= MAX_LENGTH {
          LengthExactly(m, text[1..]);
        } else if DigitsAndSpaces(text[1..]) {
          DecGrows(m, text[1..]);
        }
      }
    }
  }

  /** A header value starts with a digit and holds digits and spaces only; its number must pass the test. */
  lemma ContentLengthExactly(text: string)
    ensures ContentLength(text) ==
              if text != "" && IsDigit(text[0]) && DigitsAndSpaces(text) && DecFrom(0, text) <= MAX_LENGTH then Known(DecFrom(0, text)) else Invalid
    ensures ContentLength(text).Known? ==> ContentLength(text).n < ULLONG_MAX
  {
    hide LengthFrom;
    if text != "" && IsDigit(text[0]) {
      LengthExactly(text[0] as int - '0' as int, text[1..]);
      assert DigitsAndSpaces(text) <==> DigitsAndSpaces(text[1..]) by { assert text == [text[0]] + text[1..]; }
    }
  }
}
