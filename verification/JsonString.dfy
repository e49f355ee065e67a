/** JSON string literals: escaping on print, un-escaping and UTF-16 transcoding on parse. */
module JsonString {
  import opened Text

  /** Why a parse stops: bad syntax, running past the end of the text, or a number that is no int. */
  datatype Why = Malformed | Overrun | OtherNumber

  datatype Parse<+T> = Done(value: T, rest: string) | Stop(why: Why)

  /** Texts end with a NUL that is not part of the sequence. */
  function At(t: string, i: nat): char {
    if i < |t| then t[i] else '\0'
  }

  predicate NoNul(s: string) {
    '\0' !in s
  }

  // ---- printing ----

  function Hex4Of(n: nat): (s: string)
    requires n < 0x10000
    ensures |s| == 4
  {
    [HexDigit(n / 4096), HexDigit(n / 256 % 16), HexDigit(n / 16 % 16), HexDigit(n % 16)]
  }

  /** What print_string_ptr writes for one character. */
  function Escape(c: char): (s: string)
    ensures s != ""
  {
    if c > '\U{1f}' && c != '"' && c != '\\' then [c]
    else if c == '\\' || c == '"' then ['\\', c]
    else if c == '\U{8}' then "\\b"
    else if c == '\U{c}' then "\\f"
    else if c == '\n' then "\\n"
    else if c == '\r' then "\\r"
    else if c == '\t' then "\\t"
    else "\\u" + Hex4Of(c as int)
  }

  function Escaped(s: string): string {
    if s == "" then "" else Escape(s[0]) + Escaped(s[1..])
  }

  function Quote(s: string): string {
    "\"" + Escaped(s) + "\""
  }

  // ---- parsing ----

  /** parse_hex4: zero when one of the four characters is no hexadecimal digit. */
  function ParseHex4(t: string): (n: nat)
    ensures n < 0x10000
    ensures n != 0 ==> |t| >= 4
  {
    var a, b, c, d := HexValue(At(t, 0)), HexValue(At(t, 1)), HexValue(At(t, 2)), HexValue(At(t, 3));
    if a < 0 || b < 0 || c < 0 || d < 0 then 0 else 4096 * a + 256 * b + 16 * c + d
  }

  /** The UTF-8 bytes of a code point, one character each. */
  function Utf8(u: nat): (s: string)
    requires u < 0x110000
    ensures 1 <= |s| <= 4
  {
    if u < 0x80 then [u as char]
    else if u < 0x800 then [(0xC0 + u / 64) as char, (0x80 + u % 64) as char]
    else if u < 0x10000 then [(0xE0 + u / 4096) as char, (0x80 + u / 64 % 64) as char, (0x80 + u % 64) as char]
    else [(0xF0 + u / 262144) as char, (0x80 + u / 4096 % 64) as char, (0x80 + u / 64 % 64) as char, (0x80 + u % 64) as char]
  }

  predicate HighHalf(u: nat) { 0xD800 <= u <= 0xDBFF }
  predicate LowHalf(u: nat) { 0xDC00 <= u <= 0xDFFF }

  /** How one escape is read: what it stands for, and how far the cursor moves past the backslash. */
  datatype Piece = Piece(text: string, used: nat)

  /** The escape that `t` starts with, `t[0]` being the character after the backslash. */
  function ReadEscape(t: string): (p: Piece)
    ensures p.used >= 1
  {
    match At(t, 0)
    case 'b' => Piece("\U{8}", 1)
    case 'f' => Piece("\U{c}", 1)
    case 'n' => Piece("\n", 1)
    case 'r' => Piece("\r", 1)
    case 't' => Piece("\t", 1)
    case 'u' => ReadUnicode(if t == "" then "" else t[1..])
    case c => Piece([c], 1)
  }

  /** `t` follows the "u". */
  function ReadUnicode(t: string): (p: Piece)
    ensures p.used >= 1
  {
    var uc := ParseHex4(t);
    if LowHalf(uc) || uc == 0 then Piece("", 5)
    else if !HighHalf(uc) then Piece(Utf8(uc), 5)
    else if At(t, 4) != '\\' || At(t, 5) != 'u' then Piece("", 5)
    else
      var uc2 := ParseHex4(t[6..]);
      if !LowHalf(uc2) then Piece("", 11) else Piece(Utf8(0x10000 + (uc - 0xD800) * 1024 + (uc2 - 0xDC00)), 11)
  }

  function Prepend(s: string, p: Parse<string>): Parse<string> {
    match p case Done(v, rest) => Done(s + v, rest) case Stop(w) => Stop(w)
  }

  /** parse_string after the opening quote; the end of the text closes the literal as well. */
  function Body(t: string): (p: Parse<string>)
    ensures p.Done? ==> |p.rest| <= |t|
    decreases |t|
  {
    if t == "" then Done("", "")
    else if t[0] == '"' then Done("", t[1..])
    else if t[0] != '\\' then Prepend([t[0]], Body(t[1..]))
    else
      var e := ReadEscape(t[1..]);
      if 1 + e.used > |t| then Stop(Overrun) else Prepend(e.text, Body(t[1 + e.used..]))
  }

  function Literal(t: string): (p: Parse<string>)
    ensures p.Done? ==> |p.rest| < |t|
  {
    if At(t, 0) != '"' then Stop(Malformed) else Body(t[1..])
  }

  // ---- reading back what was printed ----

  lemma HexRoundTrip(n: nat, rest: string)
    requires n < 0x10000
    ensures ParseHex4(Hex4Of(n) + rest) == n
  {
    hide HexDigit, HexValue;
    var t := Hex4Of(n) + rest;
    assert At(t, 0) == HexDigit(n / 4096) && At(t, 1) == HexDigit(n / 256 % 16);
    assert At(t, 2) == HexDigit(n / 16 % 16) && At(t, 3) == HexDigit(n % 16);
    HexDigitRoundTrip(n / 4096);
    HexDigitRoundTrip(n / 256 % 16);
    HexDigitRoundTrip(n / 16 % 16);
    HexDigitRoundTrip(n % 16);
    FourDigits(n);
  }

  lemma FourDigits(n: nat)
    ensures 4096 * (n / 4096) + 256 * (n / 256 % 16) + 16 * (n / 16 % 16) + n % 16 == n
  {
    assert n / 256 == n / 16 / 16 && n / 4096 == n / 256 / 16;
  }

  /** The loop of parse_string takes an escape as a whole. */
  lemma EscapeStep(t: string, e: Piece)
    requires t != "" && t[0] == '\\' && ReadEscape(t[1..]) == e && 1 + e.used <= |t|
    ensures Body(t) == Prepend(e.text, Body(t[1 + e.used..]))
  {}

  lemma ShortEscapeReadsBack(c: char, t: string)
    requires c != '\0' && |Escape(c)| == 2
    ensures Body(Escape(c) + t) == Prepend([c], Body(t))
  {
    hide Body, Hex4Of, ReadUnicode;
    var u := Escape(c) + t;
    assert u[1..][0] == Escape(c)[1] && u[2..] == t;
    EscapeStep(u, Piece([c], 1));
  }

  lemma UnicodeStep(x: string, t: string, y: string, e: Piece)
    requires x + t == "\\u" + y && ReadUnicode(y) == e && 1 + e.used == |x|
    ensures Body(x + t) == Prepend(e.text, Body(t))
  {
    hide Body, ReadUnicode;
    var u := x + t;
    assert u[1..][0] == 'u' && u[1..][1..] == y && u[|x|..] == t;
    EscapeStep(u, e);
  }

  lemma EscapeReadsBack(c: char, t: string)
    requires c != '\0'
    ensures Body(Escape(c) + t) == Prepend([c], Body(t))
  {
    hide Hex4Of, ParseHex4, ReadEscape;
    var e := Escape(c);
    if |e| == 1 {
      assert (e + t)[1..] == t;
    } else if |e| == 2 {
      ShortEscapeReadsBack(c, t);
    } else {
      HexRoundTrip(c as int, t);
      assert e + t == "\\u" + (Hex4Of(c as int) + t);
      UnicodeStep(e, t, Hex4Of(c as int) + t, Piece([c], 5));
    }
  }

  /** Every NUL-free string survives being printed and parsed, whatever follows it. */
  lemma {:induction false} QuoteReadsBack(s: string, rest: string)
    requires NoNul(s)
    ensures Body(Escaped(s) + "\"" + rest) == Done(s, rest)
    ensures Literal(Quote(s) + rest) == Done(s, rest)
  {
    hide Body, Escape;
    var tail := "\"" + rest;
    if s == "" {
      assert Escaped(s) + "\"" + rest == tail;
      BodyEnds(rest);
    } else {
      QuoteReadsBack(s[1..], rest);
      EscapeReadsBack(s[0], Escaped(s[1..]) + "\"" + rest);
      assert Escaped(s) + "\"" + rest == Escape(s[0]) + (Escaped(s[1..]) + "\"" + rest);
      assert s == [s[0]] + s[1..];
    }
    assert Quote(s) + rest == "\"" + (Escaped(s) + "\"" + rest);
  }

  lemma BodyEnds(rest: string)
    ensures Body("\"" + rest) == Done("", rest)
  {
    assert ("\"" + rest)[1..] == rest;
  }

  // ---- \u escapes ----

  predicate Scalar(u: nat) {
    u < 0x110000 && !HighHalf(u) && !LowHalf(u)
  }

  /** The escape of a code point: one \u, or a surrogate pair above the basic plane. */
  function Utf16Escape(u: nat): string
    requires Scalar(u)
  {
    if u < 0x10000 then "\\u" + Hex4Of(u)
    else "\\u" + Hex4Of(0xD800 + (u - 0x10000) / 1024) + "\\u" + Hex4Of(0xDC00 + (u - 0x10000) % 1024)
  }

  /** Every escaped code point but NUL is transcoded to its own UTF-8 bytes. */
  lemma UnicodeTranscoded(u: nat, t: string)
    requires Scalar(u) && u != 0
    ensures Body(Utf16Escape(u) + t) == Prepend(Utf8(u), Body(t))
  {
    hide Hex4Of, ParseHex4, Utf8, Body;
    var x := Utf16Escape(u);
    if u < 0x10000 {
      HexRoundTrip(u, t);
      assert x + t == "\\u" + (Hex4Of(u) + t);
      UnicodeStep(x, t, Hex4Of(u) + t, Piece(Utf8(u), 5));
    } else {
      var hi, lo := 0xD800 + (u - 0x10000) / 1024, 0xDC00 + (u - 0x10000) % 1024;
      var y := Hex4Of(hi) + ("\\u" + (Hex4Of(lo) + t));
      assert x + t == "\\u" + y;
      PairTranscoded(u, hi, lo, t);
      UnicodeStep(x, t, y, Piece(Utf8(u), 11));
    }
  }

  lemma PairTranscoded(u: nat, hi: nat, lo: nat, t: string)
    requires 0x10000 <= u < 0x110000 && HighHalf(hi) && LowHalf(lo) && u == 0x10000 + (hi - 0xD800) * 1024 + (lo - 0xDC00)
    ensures ReadUnicode(Hex4Of(hi) + ("\\u" + (Hex4Of(lo) + t))) == Piece(Utf8(u), 11)
  {
    hide Hex4Of, ParseHex4, Utf8;
    var second := "\\u" + (Hex4Of(lo) + t);
    var y := Hex4Of(hi) + second;
    HexRoundTrip(hi, second);
    HexRoundTrip(lo, t);
    assert y[4] == second[0] && y[5] == second[1] && y[6..] == Hex4Of(lo) + t;
  }

  /** The code point that UTF-8 bytes stand for. */
  function FromUtf8(s: string): int {
    if |s| == 1 then s[0] as int
    else if |s| == 2 then (s[0] as int - 0xC0) * 64 + (s[1] as int - 0x80)
    else if |s| == 3 then (s[0] as int - 0xE0) * 4096 + (s[1] as int - 0x80) * 64 + (s[2] as int - 0x80)
    else if |s| == 4 then (s[0] as int - 0xF0) * 262144 + (s[1] as int - 0x80) * 4096 + (s[2] as int - 0x80) * 64 + (s[3] as int - 0x80)
    else -1
  }

  /** Different code points never share their bytes. */
  lemma Utf8RoundTrip(u: nat)
    requires u < 0x110000
    ensures FromUtf8(Utf8(u)) == u
  {
    assert u / 262144 == u / 4096 / 64 && u / 4096 == u / 64 / 64;
  }
}
