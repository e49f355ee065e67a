/**
 The body states of http_parser_execute: chunked transfer coding and Content-Length
 (sections 3.6.1 and 4.4 of RFC 2616). One character stands for one byte.
 */
module HttpBody {
  import opened Text

  const ULLONG_MAX: nat := 0xFFFF_FFFF_FFFF_FFFF
  const HTTP_MAX_HEADER_SIZE: nat := 80 * 1024

  datatype Errno = InvalidChunkSize | InvalidContentLength | Strict | HeaderOverflow | InvalidEofState

  /**
   The states of a message body. Trailer fields and the message that follows are not
   modelled: the parser stays in TrailerField or Over.
   */
  datatype Phase =
    | ChunkSizeStart | ChunkSize | ChunkParameters | ChunkSizeAlmostDone
    | ChunkData | ChunkDataAlmostDone | ChunkDataDone
    | TrailerStart | TrailerAlmostDone | TrailerField
    | BodyIdentity | Over
    | Failed(errno: Errno)

  /**
   The parser's fields, the data its on_body callback has been given, how often
   on_message_complete was called, and the bytes marked but not yet handed over.
   `strict` is the build's HTTP_PARSER_STRICT.
   */
  datatype Parser = Parser(strict: bool, phase: Phase, length: nat, nread: nat, body: string, held: string, completes: nat)

  /** States in which header bytes are counted. */
  predicate InHeader(phase: Phase) {
    phase.ChunkSizeStart? || phase.ChunkSize? || phase.ChunkParameters? || phase.ChunkSizeAlmostDone?
    || phase.TrailerStart? || phase.TrailerAlmostDone?
  }

  function Fail(s: Parser, e: Errno): Parser {
    s.(phase := Failed(e), held := "")
  }

  /** What STRICT_CHECK refuses: an unexpected line end, in a strict build only. */
  predicate Refused(s: Parser, unexpected: bool) {
    s.strict && unexpected
  }

  function Complete(s: Parser): Parser {
    s.(phase := Over, completes := s.completes + 1)
  }

  /** One more hexadecimal digit of a chunk size, with the conservative overflow test. */
  function SizeDigit(s: Parser, d: nat): Parser {
    if (ULLONG_MAX - 16) / 16 < s.length then Fail(s, InvalidContentLength) else s.(length := 16 * s.length + d)
  }

  /** What the parser does with one byte. */
  function Step(s: Parser, ch: char): Parser {
    var n := if InHeader(s.phase) then s.nread + 1 else s.nread;
    if InHeader(s.phase) && n > HTTP_MAX_HEADER_SIZE then Fail(s.(nread := n), HeaderOverflow) else StepIn(s.(nread := n), ch)
  }

  function StepIn(s: Parser, ch: char): Parser {
    match s.phase
    case ChunkSizeStart =>
      if HexValue(ch) < 0 then Fail(s, InvalidChunkSize) else s.(phase := ChunkSize, length := HexValue(ch))
    case ChunkSize =>
      if ch == '\r' then s.(phase := ChunkSizeAlmostDone)
      else if HexValue(ch) >= 0 then SizeDigit(s, HexValue(ch))
      else if ch == ';' || ch == ' ' then s.(phase := ChunkParameters)
      else Fail(s, InvalidChunkSize)
    case ChunkParameters => if ch == '\r' then s.(phase := ChunkSizeAlmostDone) else s
    case ChunkSizeAlmostDone =>
      if Refused(s, ch != '\n') then Fail(s, Strict) else s.(nread := 0, phase := if s.length == 0 then TrailerStart else ChunkData)
    case ChunkData => StepData(s, ch)
    case ChunkDataAlmostDone =>
      if Refused(s, ch != '\r') then Fail(s, Strict) else s.(phase := ChunkDataDone, body := s.body + s.held, held := "")
    case ChunkDataDone => if Refused(s, ch != '\n') then Fail(s, Strict) else s.(nread := 0, phase := ChunkSizeStart)
    case TrailerStart =>
      if ch == '\r' then s.(phase := TrailerAlmostDone) else if ch == '\n' then Complete(s) else s.(phase := TrailerField)
    case TrailerAlmostDone => if Refused(s, ch != '\n') then Fail(s, Strict) else Complete(s)
    case BodyIdentity =>
      if s.length <= 1 then Complete(s.(length := 0, body := s.body + s.held + [ch], held := ""))
      else s.(length := s.length - 1, held := s.held + [ch])
    case _ => s
  }

  function StepData(s: Parser, ch: char): Parser {
    s.(length := if s.length == 0 then 0 else s.length - 1, held := s.held + [ch], phase := if s.length <= 1 then ChunkDataAlmostDone else ChunkData)
  }

  function Fold(s: Parser, data: string): Parser
    decreases |data|
  {
    if data == "" then s else Fold(Step(s, data[0]), data[1..])
  }

  /** The parser when the headers of a chunked message are done. */
  function Chunked(strict: bool): Parser {
    Parser(strict, ChunkSizeStart, 0, 0, "", "", 0)
  }

  /** The end of a call hands over what is still marked. */
  function Flush(s: Parser): Parser {
    s.(body := s.body + s.held, held := "")
  }

  /** http_parser_execute; an empty buffer announces the end of the connection. */
  function Execute(s: Parser, data: string): Parser {
    if s.phase.Failed? then s
    else if data == "" then (if s.phase.Over? then s else Fail(s, InvalidEofState))
    else Flush(Fold(s, data))
  }

  function ExecuteAll(s: Parser, pieces: seq<string>): Parser
    decreases |pieces|
  {
    if pieces == [] then s else ExecuteAll(Execute(s, pieces[0]), pieces[1..])
  }

  // ---- what every step keeps ----

  /** The conditions the code asserts in its body states. */
  predicate Valid(s: Parser) {
    && s.length < ULLONG_MAX
    && (s.phase.ChunkSizeStart? ==> s.nread == 0)
    && (s.phase.ChunkData? || s.phase.BodyIdentity? ==> s.length > 0)
    && (s.phase.ChunkDataAlmostDone? ==> s.length == 0)
    && (s.held != "" ==> s.phase.ChunkData? || s.phase.ChunkDataAlmostDone? || s.phase.BodyIdentity?)
    && s.completes <= 1 && (s.completes == 1 ==> s.phase.Over?)
  }

  lemma StepValid(s: Parser, ch: char)
    requires Valid(s)
    ensures Valid(Step(s, ch))
  {}

  lemma {:induction false} FoldValid(s: Parser, data: string)
    requires Valid(s)
    ensures Valid(Fold(s, data))
    decreases |data|
  {
    hide Valid, Step;
    if data != "" {
      StepValid(s, data[0]);
      FoldValid(Step(s, data[0]), data[1..]);
    }
  }

  lemma ExecuteValid(s: Parser, data: string)
    requires Valid(s)
    ensures Valid(Execute(s, data)) && (data != "" && !s.phase.Failed? ==> Execute(s, data).held == "")
  {
    hide Fold;
    FoldValid(s, data);
  }

  // ---- cuts ----

  lemma {:induction false} FoldSplits(s: Parser, a: string, b: string)
    ensures Fold(s, a + b) == Fold(Fold(s, a), b)
    decreases |a|
  {
    hide Step;
    if a == "" {
      assert a + b == b;
    } else {
      FoldSplits(Step(s, a[0]), a[1..], b);
      assert (a + b)[1..] == a[1..] + b;
    }
  }

  lemma {:induction false} FailedStays(s: Parser, data: string)
    requires s.phase.Failed?
    ensures Fold(s, data) == s
    decreases |data|
  {
    if data != "" { FailedStays(Step(s, data[0]), data[1..]); }
  }

  lemma FlushValid(s: Parser)
    requires Valid(s)
    ensures Valid(Flush(s))
  {}

  /** `v` has already handed over the bytes `h` that `u` still holds. */
  predicate Behind(u: Parser, v: Parser, h: string) {
    && u.strict == v.strict && u.phase == v.phase && u.length == v.length && u.nread == v.nread && u.completes == v.completes
    && h != "" && v.body == u.body + h && u.held == h + v.held
  }

  /** A step keeps the distance, hands the bytes over, or fails and drops them. */
  lemma BehindStep(u: Parser, v: Parser, h: string, ch: char)
    requires Behind(u, v, h) && Valid(u) && Valid(v)
    ensures var x, y := Step(u, ch), Step(v, ch);
            || (x.phase.Failed? && x.body == u.body && y == x.(body := x.body + h))
            || (x == y && |x.body| > |u.body|)
            || (Behind(x, y, h) && x.body == u.body && !x.phase.Failed?)
  {
    hide HexValue;
    assert u.phase.ChunkData? || u.phase.ChunkDataAlmostDone? || u.phase.BodyIdentity?;
    assert u.body + (h + v.held) == u.body + h + v.held;
    assert h + v.held + [ch] == h + (v.held + [ch]);
    assert u.body + (h + v.held) + [ch] == u.body + h + v.held + [ch];
  }

  lemma {:induction false} BodyGrows(s: Parser, data: string)
    ensures |Fold(s, data).body| >= |s.body|
    decreases |data|
  {
    if data != "" { BodyGrows(Step(s, data[0]), data[1..]); }
  }

  lemma {:induction false} BehindFold(u: Parser, v: Parser, h: string, data: string)
    requires Behind(u, v, h) && Valid(u) && Valid(v) && !u.phase.Failed?
    ensures var x, y := Fold(u, data), Fold(v, data);
            if x.phase.Failed? && x.body == u.body then y == x.(body := x.body + h) else Flush(x) == Flush(y)
    decreases |data|
  {
    hide Step, Valid;
    if data == "" {
      assert u.body + (h + v.held) == u.body + h + v.held;
    } else {
      BehindStep(u, v, h, data[0]);
      StepValid(u, data[0]);
      StepValid(v, data[0]);
      var x, y := Step(u, data[0]), Step(v, data[0]);
      if x.phase.Failed? {
        FailedStays(x, data[1..]);
        FailedStays(y, data[1..]);
      } else if x == y {
        BodyGrows(x, data[1..]);
      } else {
        BehindFold(x, y, h, data[1..]);
      }
    }
  }

  // ---- blocks of body bytes ----

  /** The bytes of a chunk are taken one by one or in blocks, with the same effect. */
  lemma {:induction false} DataRead(s: Parser, data: string)
    requires s.phase.ChunkData? && data != "" && |data| <= s.length
    ensures Fold(s, data) ==
              s.(length := s.length - |data|, held := s.held + data, phase := if |data| == s.length then ChunkDataAlmostDone else ChunkData)
    decreases |data|
  {
    var t := Step(s, data[0]);
    assert data == [data[0]] + data[1..];
    if |data| == 1 {
      assert Fold(t, "") == t;
    } else {
      DataRead(t, data[1..]);
      assert s.held + [data[0]] + data[1..] == s.held + data;
    }
  }

  lemma {:induction false} IdentityRead(s: Parser, data: string)
    requires s.phase.BodyIdentity? && |data| == s.length > 0
    ensures Fold(s, data) == s.(phase := Over, length := 0, body := s.body + s.held + data, held := "", completes := s.completes + 1)
    decreases |data|
  {
    var t := Step(s, data[0]);
    assert data == [data[0]] + data[1..];
    if |data| == 1 {
      assert Fold(t, "") == t && [data[0]] == data;
    } else {
      IdentityRead(t, data[1..]);
      assert s.body + (s.held + [data[0]]) + data[1..] == s.body + s.held + data;
    }
  }

  lemma {:induction false} IdentityPart(s: Parser, data: string)
    requires s.phase.BodyIdentity? && |data| < s.length
    ensures Fold(s, data) == s.(length := s.length - |data|, held := s.held + data)
    decreases |data|
  {
    if data == "" {
      assert s.held + "" == s.held;
    } else {
      var t := Step(s, data[0]);
      assert data == [data[0]] + data[1..];
      IdentityPart(t, data[1..]);
      assert s.held + [data[0]] + data[1..] == s.held + data;
    }
  }

  /** In a strict build, a chunk cut behind its first bytes and not closed by a CR after its last. */
  predicate CutShows(m: Parser, b: string) {
    m.strict && m.held != "" && !m.phase.BodyIdentity? && |b| > m.length && b[m.length] != '\r'
  }

  /** The first byte behind the data of a chunk decides whether the held bytes are dropped. */
  lemma DropExactly(m: Parser, b: string)
    requires Valid(m) && m.held != "" && !m.phase.Failed? && !m.phase.BodyIdentity?
    ensures Fold(m, b).phase.Failed? && Fold(m, b).body == m.body <==> CutShows(m, b)
  {
    hide Fold, Valid;
    if |b| > m.length {
      var n := m.length;
      FoldSplits(m, b[..n], b[n..]);
      assert b[..n] + b[n..] == b;
      DataEnds(m, b[..n]);
      EndOfChunk(Fold(m, b[..n]), b[n..]);
    } else {
      NotEnough(m, b);
    }
  }

  lemma DataEnds(m: Parser, data: string)
    requires Valid(m) && m.held != "" && !m.phase.BodyIdentity? && |data| == m.length
    ensures var t := Fold(m, data);
            t.phase.ChunkDataAlmostDone? && t.strict == m.strict && t.body == m.body && t.held != ""
  {
    if m.phase.ChunkData? { DataRead(m, data); }
  }

  lemma NotEnough(m: Parser, b: string)
    requires Valid(m) && m.held != "" && !m.phase.BodyIdentity? && |b| <= m.length
    ensures !Fold(m, b).phase.Failed?
  {
    if b != "" { DataRead(m, b); }
  }

  lemma EndOfChunk(t: Parser, rest: string)
    requires t.phase.ChunkDataAlmostDone? && t.held != "" && rest != ""
    ensures Fold(t, rest).phase.Failed? && Fold(t, rest).body == t.body <==> t.strict && rest[0] != '\r'
  {
    var u := Step(t, rest[0]);
    if u.phase.Failed? {
      FailedStays(u, rest[1..]);
    } else {
      assert |u.body| > |t.body|;
      BodyGrows(u, rest[1..]);
    }
  }

  lemma IdentityNeverDrops(m: Parser, b: string)
    requires Valid(m) && m.phase.BodyIdentity? && m.held != ""
    ensures !(Fold(m, b).phase.Failed? && Fold(m, b).body == m.body)
  {
    hide Valid, Fold;
    if |b| < m.length {
      IdentityPart(m, b);
    } else {
      var n := m.length;
      assert n > 0 by { IdentityLength(m); }
      FoldSplits(m, b[..n], b[n..]);
      assert b[..n] + b[n..] == b;
      IdentityRead(m, b[..n]);
      BodyGrows(Fold(m, b[..n]), b[n..]);
    }
  }

  lemma IdentityLength(m: Parser)
    requires Valid(m) && m.phase.BodyIdentity?
    ensures m.length > 0
  {}

  /** Exactly when a cut makes a difference, from the state at the cut and one byte behind it. */
  lemma CutExactly(s: Parser, a: string, b: string)
    requires Valid(s) && !s.phase.Failed? && a != "" && b != ""
    ensures Execute(Execute(s, a), b) == Execute(s, a + b) <==> !CutShows(Fold(s, a), b)
  {
    hide Fold, Valid;
    FoldSplits(s, a, b);
    var m := Fold(s, a);
    FoldValid(s, a);
    FlushValid(m);
    if m.phase.Failed? {
      FailedStays(m, b);
      NothingHeld(m);
    } else if m.held == "" {
      assert Flush(m) == m by { assert m.body + "" == m.body; }
    } else {
      assert m.held + "" == m.held;
      if m.phase.BodyIdentity? { IdentityNeverDrops(m, b); } else { DropExactly(m, b); }
      BehindFold(m, Flush(m), m.held, b);
      FoldValid(m, b);
      FoldValid(Flush(m), b);
      if Fold(m, b).phase.Failed? {
        NothingHeld(Fold(m, b));
        NothingHeld(Fold(Flush(m), b));
        NoFlush(Fold(m, b));
        NoFlush(Fold(Flush(m), b));
      }
    }
  }

  lemma NothingHeld(s: Parser)
    requires Valid(s) && s.phase.Failed?
    ensures s.held == "" && Flush(s) == s
  {
    assert s.body + "" == s.body;
  }

  lemma NoFlush(s: Parser)
    requires s.held == ""
    ensures Flush(s) == s
  {
    assert s.body + "" == s.body;
  }

  /** A stream the parser accepts may be cut anywhere. */
  lemma AcceptedSoFar(s: Parser, a: string, b: string)
    requires Valid(s) && !s.phase.Failed? && a != "" && b != "" && !Fold(s, a + b).phase.Failed?
    ensures Execute(Execute(s, a), b) == Execute(s, a + b)
    ensures var m := Execute(s, a); Valid(m) && !m.phase.Failed? && !Fold(m, b).phase.Failed?
  {
    hide Fold, Valid;
    CutExactly(s, a, b);
    FoldSplits(s, a, b);
    var m := Fold(s, a);
    if m.phase.Failed? { FailedStays(m, b); }
    FoldValid(s, a);
    if m.held != "" && !m.phase.BodyIdentity? { DropExactly(m, b); }
    ExecuteValid(s, a);
  }

  function Joined(pieces: seq<string>): string {
    if pieces == [] then "" else pieces[0] + Joined(pieces[1..])
  }

  /** For every cutting into non-empty calls. */
  lemma {:induction false} CutsDoNotMatter(s: Parser, pieces: seq<string>)
    requires Valid(s) && !s.phase.Failed? && pieces != [] && (forall i | 0 <= i < |pieces| :: pieces[i] != "")
    requires !Fold(s, Joined(pieces)).phase.Failed?
    ensures ExecuteAll(s, pieces) == Execute(s, Joined(pieces))
    decreases |pieces|
  {
    hide Fold, Valid, Execute;
    var a, rest := pieces[0], pieces[1..];
    if rest == [] {
      assert a + "" == a;
      assert ExecuteAll(Execute(s, a), []) == Execute(s, a);
    } else {
      assert rest[0] != "";
      AcceptedSoFar(s, a, Joined(rest));
      CutsDoNotMatter(Execute(s, a), rest);
    }
  }

  /** Cuts do show: a byte of a chunk without its closing CR is lost in one call and delivered in two. */
  lemma CutMatters()
    ensures Execute(Chunked(true), "1\r\nx" + "y").body == ""
    ensures Execute(Execute(Chunked(true), "1\r\nx"), "y").body == "x"
  {
    var t := Parser(true, ChunkDataAlmostDone, 0, 0, "", "x", 0);
    var u := Parser(true, ChunkDataAlmostDone, 0, 0, "x", "", 0);
    FirstByte();
    FoldSplits(Chunked(true), "1\r\nx", "y");
    assert "y"[1..] == "";
    assert Flush(t) == u;
    assert Fold(t, "y") == Fail(t, Strict);
    assert Fold(u, "y") == Fail(u, Strict);
  }

  lemma FirstByte()
    ensures Fold(Chunked(true), "1\r\nx") == Parser(true, ChunkDataAlmostDone, 0, 0, "", "x", 0)
  {
    var s := Chunked(true);
    var s1 := Parser(true, ChunkSize, 1, 1, "", "", 0);
    var s2 := Parser(true, ChunkSizeAlmostDone, 1, 2, "", "", 0);
    var s3 := Parser(true, ChunkData, 1, 0, "", "", 0);
    assert Step(s, '1') == s1 && Step(s1, '\r') == s2 && Step(s2, '\n') == s3;
    assert "1\r\nx"[1..] == "\r\nx" && "\r\nx"[1..] == "\nx" && "\nx"[1..] == "x" && "x"[1..] == "";
    assert Fold(s3, "x") == Step(s3, 'x');
    assert Fold(s2, "\nx") == Fold(s3, "x");
    assert Fold(s1, "\r\nx") == Fold(s2, "\nx");
  }
}
