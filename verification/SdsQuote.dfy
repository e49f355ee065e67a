/** sdscatrepr and sdssplitargs: quoting byte strings and splitting a line into arguments. */
module SdsQuote {
  import opened Bytes
  import opened Text

  /** The character at `i`, or the NUL at the end of the line. */
  function At(t: string, i: nat): char {
    if i < |t| then t[i] else '\0'
  }

  predicate IsPrint(c: char) {
    ' ' <= c <= '~'
  }

  predicate IsSpace(c: char) {
    c == ' ' || '\t' <= c <= '\r'
  }

  // ---- quoting ----

  /** What sdscatrepr writes for one byte. */
  function Escape(c: char): (s: string)
    requires c as int < 256
    ensures s != ""
  {
    if c == '\\' || c == '"' then ['\\', c]
    else if c == '\n' then "\\n"
    else if c == '\r' then "\\r"
    else if c == '\t' then "\\t"
    else if c == '\U{7}' then "\\a"
    else if c == '\U{8}' then "\\b"
    else if IsPrint(c) then [c]
    else "\\x" + [HexDigit(c as int / 16), HexDigit(c as int % 16)]
  }

  predicate Octets(s: string) {
    forall i | 0 <= i < |s| :: s[i] as int < 256
  }

  function Escaped(s: string): string
    requires Octets(s)
  {
    if s == "" then "" else Escape(s[0]) + Escaped(s[1..])
  }

  function Repr(s: string): string
    requires Octets(s)
  {
    "\"" + Escaped(s) + "\""
  }

  method CatRepr(s0: string, p: string) returns (s: string)
    requires Octets(p)
    ensures s == s0 + Repr(p)
  {
    hide Escape;
    s := s0 + "\"";
    var i := 0;
    assert p[0..] == p;
    while i < |p|
      invariant i <= |p| && s + Escaped(p[i..]) == s0 + ("\"" + Escaped(p))
    {
      assert p[i..][1..] == p[i + 1..];
      assert s + (Escape(p[i]) + Escaped(p[i + 1..])) == s + Escape(p[i]) + Escaped(p[i + 1..]);
      s := s + Escape(p[i]);
      i := i + 1;
    }
    assert p[|p|..] == "" && s + "" == s;
    s := s + "\"";
  }

  // ---- splitting ----

  datatype Mode = Plain | Double | Single

  datatype Token = Token(text: string, rest: string) | Bad

  predicate HexEscape(t: string) {
    At(t, 0) == '\\' && At(t, 1) == 'x' && HexValue(At(t, 2)) >= 0 && HexValue(At(t, 3)) >= 0
  }

  function Unescape(c: char): char {
    match c
    case 'n' => '\n'
    case 'r' => '\r'
    case 't' => '\t'
    case 'b' => '\U{8}'
    case 'a' => '\U{7}'
    case _ => c
  }

  /** One turn of the token loop: go on with more text, stop, or give up. */
  datatype Turn = Go(mode: Mode, add: string, used: nat) | End(used: nat) | Err

  function OneTurn(mode: Mode, t: string): (r: Turn)
    ensures r.Go? ==> 1 <= r.used <= |t|
    ensures r.End? ==> r.used <= |t| && (t != "" ==> r.used == 1)
  {
    match mode
    case Double =>
      if HexEscape(t) then Go(Double, [(16 * HexValue(t[2]) + HexValue(t[3])) as char], 4)
      else if At(t, 0) == '\\' && |t| >= 2 then Go(Double, [Unescape(t[1])], 2)
      else if At(t, 0) == '"' then (if |t| >= 2 && !IsSpace(t[1]) then Err else End(1))
      else if t == "" then Err
      else Go(Double, [t[0]], 1)
    case Single =>
      if At(t, 0) == '\\' && At(t, 1) == '\'' then Go(Single, "'", 2)
      else if At(t, 0) == '\'' then (if |t| >= 2 && !IsSpace(t[1]) then Err else End(1))
      else if t == "" then Err
      else Go(Single, [t[0]], 1)
    case Plain =>
      if t == "" then End(0)
      else if t[0] == ' ' || t[0] == '\n' || t[0] == '\r' || t[0] == '\t' then End(1)
      else if t[0] == '"' then Go(Double, "", 1)
      else if t[0] == '\'' then Go(Single, "", 1)
      else Go(Plain, [t[0]], 1)
  }

  function Read(mode: Mode, t: string, text: string): (k: Token)
    ensures k.Token? ==> |k.rest| <= |t| && (t != "" ==> |k.rest| < |t|)
    decreases |t|
  {
    match OneTurn(mode, t)
    case Err => Bad
    case End(used) => Token(text, t[used..])
    case Go(m, add, used) => Read(m, t[used..], text + add)
  }

  function SkipSpace(t: string): (r: string)
    ensures |r| <= |t|
  {
    if t != "" && IsSpace(t[0]) then SkipSpace(t[1..]) else t
  }

  /** The arguments of a line, or None for unbalanced quotes. */
  function Split(t: string): Option<seq<string>>
    decreases |t|
  {
    var u := SkipSpace(t);
    if u == "" then Some([])
    else
      match Read(Plain, u, "")
      case Bad => None
      case Token(text, rest) => (match Split(rest) case None => None case Some(more) => Some([text] + more))
  }

  /** The characters of a line up to its NUL, which is where every loop of sdssplitargs stops. */
  function Body(line: string): string {
    UpTo(line, '\0')
  }

  /** Up to the NUL the line and its body hold the same characters. */
  lemma {:induction false} BodyAt(line: string, i: nat)
    requires i <= |Body(line)|
    ensures At(line, i) == At(Body(line), i) && (At(line, i) == '\0' <==> i == |Body(line)|)
  {
    if i > 0 {
      BodyAt(line[1..], i - 1);
    }
  }

  method SplitArgs(line: string) returns (argv: Option<seq<string>>)
    ensures argv == Split(Body(line))
  {
    hide OneTurn, Read, SkipSpace, Body;
    ghost var c := Body(line);
    var vector: seq<string>, p: nat := [], 0;
    assert c[0..] == c;
    PrependNone(Split(c));
    while true
      invariant p <= |c| && Prepend(vector, Split(c[p..])) == Split(c)
      decreases |c| - p
    {
      SplitStep(c[p..]);
      p := SkipBlanks(line, p);
      BodyAt(line, p);
      if At(line, p) == '\0' {
        assert vector + [] == vector;
        return Some(vector);
      }
      var current, q := GetToken(line, p);
      if current.None? { return None; }
      PrependOne(vector, current.value, Split(c[q..]));
      vector := vector + [current.value];
      p := q;
    }
  }

  method SkipBlanks(line: string, start: nat) returns (p: nat)
    requires start <= |Body(line)|
    ensures start <= p <= |Body(line)| && Body(line)[p..] == SkipSpace(Body(line)[start..])
  {
    hide Body;
    ghost var c := Body(line);
    p := start;
    BodyAt(line, p);
    while At(line, p) != '\0' && IsSpace(At(line, p))
      invariant start <= p <= |c| && SkipSpace(c[p..]) == SkipSpace(c[start..])
      invariant At(line, p) == At(c, p) && (At(line, p) == '\0' <==> p == |c|)
      decreases |c| - p
    {
      assert c[p..][1..] == c[p + 1..];
      p := p + 1;
      BodyAt(line, p);
    }
  }

  function ModeOf(inq: bool, insq: bool): Mode {
    if inq then Double else if insq then Single else Plain
  }

  /** The variables of the token loop after a turn are what `r` asks for. */
  predicate Did(r: Turn, current0: string, p0: nat, err: bool, done: bool, inq: bool, insq: bool, current: string, p: nat) {
    match r
    case Err => err
    case End(used) => !err && done && current == current0 && p == p0 + used
    case Go(mode, add, used) => !err && !done && ModeOf(inq, insq) == mode && current == current0 + add && p == p0 + used
  }

  /** What a turn can see of the line from `p` on. */
  lemma Ahead(line: string, p: nat, k: nat)
    requires p + k <= |Body(line)|
    ensures At(line, p + k) == At(Body(line)[p..], k) && (At(line, p + k) == '\0' <==> p + k == |Body(line)|)
  {
    BodyAt(line, p + k);
  }

  /** A turn inside double quotes. */
  method InDouble(line: string, start: nat, text: string) returns (err: bool, done: bool, current: string, p: nat)
    requires start <= |Body(line)|
    ensures Did(OneTurn(Double, Body(line)[start..]), text, start, err, done, true, false, current, p)
  {
    hide Body;
    err, done, current, p := false, false, text, start;
    assert text + "" == text;
    Ahead(line, p, 0);
    if At(line, p) != '\0' { Ahead(line, p, 1); }
    if At(line, p) == '\\' && At(line, p + 1) == 'x' {
      Ahead(line, p, 2);
      if HexValue(At(line, p + 2)) >= 0 {
        NotNul(At(line, p + 2));
        Ahead(line, p, 3);
        NotNul(At(line, p + 3));
      }
    }
    if At(line, p) == '\\' && At(line, p + 1) == 'x' && HexValue(At(line, p + 2)) >= 0 && HexValue(At(line, p + 3)) >= 0 {
      current := current + [(HexValue(At(line, p + 2)) * 16 + HexValue(At(line, p + 3))) as char];
      p := p + 3;
    } else if At(line, p) == '\\' && At(line, p + 1) != '\0' {
      p := p + 1;
      var ch := At(line, p);
      match ch {
        case 'n' => ch := '\n';
        case 'r' => ch := '\r';
        case 't' => ch := '\t';
        case 'b' => ch := '\U{8}';
        case 'a' => ch := '\U{7}';
        case _ =>
      }
      current := current + [ch];
    } else if At(line, p) == '"' {
      if At(line, p + 1) != '\0' && !IsSpace(At(line, p + 1)) { err := true; }
      done := true;
    } else if At(line, p) == '\0' {
      err := true;
    } else {
      current := current + [At(line, p)];
    }
    if At(line, p) != '\0' { p := p + 1; }
  }

  lemma NotNul(c: char)
    ensures HexValue(c) >= 0 ==> c != '\0'
  {}

  /** A turn inside single quotes. */
  method InSingle(line: string, start: nat, text: string) returns (err: bool, done: bool, current: string, p: nat)
    requires start <= |Body(line)|
    ensures Did(OneTurn(Single, Body(line)[start..]), text, start, err, done, false, true, current, p)
  {
    hide Body;
    err, done, current, p := false, false, text, start;
    Ahead(line, p, 0);
    if At(line, p) != '\0' { Ahead(line, p, 1); }
    if At(line, p) == '\\' && At(line, p + 1) == '\'' {
      p := p + 1;
      current := current + "'";
    } else if At(line, p) == '\'' {
      if At(line, p + 1) != '\0' && !IsSpace(At(line, p + 1)) { err := true; }
      done := true;
    } else if At(line, p) == '\0' {
      err := true;
    } else {
      current := current + [At(line, p)];
    }
    if At(line, p) != '\0' { p := p + 1; }
  }

  /** A turn outside quotes. */
  method InPlain(line: string, start: nat, text: string) returns (done: bool, inq: bool, insq: bool, current: string, p: nat)
    requires start <= |Body(line)|
    ensures Did(OneTurn(Plain, Body(line)[start..]), text, start, false, done, inq, insq, current, p) && !(inq && insq)
  {
    hide Body;
    done, inq, insq, current, p := false, false, false, text, start;
    assert text + "" == text;
    Ahead(line, p, 0);
    match At(line, p) {
      case ' ' => done := true;
      case '\n' => done := true;
      case '\r' => done := true;
      case '\t' => done := true;
      case '\0' => done := true;
      case '"' => inq := true;
      case '\'' => insq := true;
      case _ => current := current + [At(line, p)];
    }
    if At(line, p) != '\0' { p := p + 1; }
  }

  /** A turn that was done is one step of reading a token. */
  lemma TurnRead(c: string, mode: Mode, current0: string, p0: nat, err: bool, done: bool, inq: bool, insq: bool, current: string, p: nat)
    requires p0 <= |c| && Did(OneTurn(mode, c[p0..]), current0, p0, err, done, inq, insq, current, p)
    ensures var k := Read(mode, c[p0..], current0);
            if err then k == Bad
            else p0 <= p <= |c| && (p0 < |c| ==> p0 < p) && (!done ==> p0 < p)
                 && k == if done then Token(current, c[p..]) else Read(ModeOf(inq, insq), c[p..], current)
  {
    hide OneTurn;
    var r := OneTurn(mode, c[p0..]);
    if !r.Err? { assert c[p0..][r.used..] == c[p0 + r.used..]; }
  }

  /** The inner loop of sdssplitargs. */
  method GetToken(line: string, start: nat) returns (token: Option<string>, p: nat)
    requires start < |Body(line)|
    ensures match Read(Plain, Body(line)[start..], "")
            case Bad => token == None
            case Token(text, rest) => token == Some(text) && start < p <= |Body(line)| && rest == Body(line)[p..]
  {
    hide OneTurn, Body, Read, Did;
    ghost var c := Body(line);
    var err, done, inq, insq, current := false, false, false, false, "";
    p := start;
    while !done
      invariant start <= p <= |c| && !(inq && insq)
      invariant !done ==> Read(ModeOf(inq, insq), c[p..], current) == Read(Plain, c[start..], "")
      invariant done ==> Read(Plain, c[start..], "") == Token(current, c[p..]) && start < p
      decreases !done, |c| - p
    {
      ghost var mode, was, p0 := ModeOf(inq, insq), current, p;
      if inq {
        err, done, current, p := InDouble(line, p, current);
      } else if insq {
        err, done, current, p := InSingle(line, p, current);
      } else {
        done, inq, insq, current, p := InPlain(line, p, current);
      }
      TurnRead(c, mode, was, p0, err, done, inq, insq, current, p);
      if err { return None, p; }
    }
    token := Some(current);
  }

  function Prepend(v: seq<string>, r: Option<seq<string>>): Option<seq<string>> {
    match r case None => None case Some(s) => Some(v + s)
  }

  lemma PrependNone(r: Option<seq<string>>)
    ensures Prepend([], r) == r
  {
    if r.Some? { assert [] + r.value == r.value; }
  }

  lemma PrependOne(v: seq<string>, x: string, r: Option<seq<string>>)
    ensures Prepend(v, Prepend([x], r)) == Prepend(v + [x], r)
  {
    if r.Some? { assert v + ([x] + r.value) == v + [x] + r.value; }
  }

  lemma SplitStep(t: string)
    ensures Split(t) ==
              var u := SkipSpace(t);
              if u == "" then Some([])
              else match Read(Plain, u, "") case Bad => None case Token(text, rest) => Prepend([text], Split(rest))
  {
    hide Read, SkipSpace;
  }

  // ---- the round trip ----

  lemma EscapeReadsBack(c: char, t: string, text: string)
    requires c as int < 256
    ensures Read(Double, Escape(c) + t, text) == Read(Double, t, text + [c])
  {
    hide HexDigit, HexValue;
    var e := Escape(c);
    var u := e + t;
    if |e| == 4 {
      var n := c as int;
      HexDigitRoundTrip(n / 16);
      HexDigitRoundTrip(n % 16);
      assert u[2] == HexDigit(n / 16) && u[3] == HexDigit(n % 16) && u[4..] == t;
      assert 16 * (n / 16) + n % 16 == n;
      assert OneTurn(Double, u) == Go(Double, [c], 4);
    } else if |e| == 2 {
      assert u[1] == e[1] && u[2..] == t;
      assert OneTurn(Double, u) == Go(Double, [c], 2);
    } else {
      assert u[1..] == t;
      assert OneTurn(Double, u) == Go(Double, [c], 1);
    }
  }

  lemma {:induction false} EscapedReadsBack(s: string, t: string, text: string)
    requires Octets(s)
    ensures Read(Double, Escaped(s) + t, text) == Read(Double, t, text + s)
  {
    hide Escape, Read;
    if s == "" {
      assert Escaped(s) + t == t && text + s == text;
    } else {
      assert Escaped(s) + t == Escape(s[0]) + (Escaped(s[1..]) + t);
      EscapeReadsBack(s[0], Escaped(s[1..]) + t, text);
      EscapedReadsBack(s[1..], t, text + [s[0]]);
      assert text + [s[0]] + s[1..] == text + s;
    }
  }

  /** A quoted string is one token when a space or nothing follows it. */
  lemma ReprReadsBack(s: string, t: string)
    requires Octets(s) && (t == "" || IsSpace(t[0]))
    ensures Read(Plain, Repr(s) + t, "") == Token(s, t)
  {
    hide Escaped;
    var u := Repr(s) + t;
    assert u[1..] == Escaped(s) + ("\"" + t);
    assert OneTurn(Plain, u) == Go(Double, "", 1);
    EscapedReadsBack(s, "\"" + t, "");
    assert ("\"" + t)[1..] == t && "" + s == s && "" + "" == "";
    assert OneTurn(Double, "\"" + t) == End(1);
  }

  predicate AllSpace(g: string) {
    forall i | 0 <= i < |g| :: IsSpace(g[i])
  }

  /** The quoted arguments with white space around and between them. */
  function Line(args: seq<string>, gaps: seq<string>): string
    requires |gaps| == |args| + 1 && forall i | 0 <= i < |args| :: Octets(args[i])
  {
    if args == [] then gaps[0] else gaps[0] + (Repr(args[0]) + Line(args[1..], gaps[1..]))
  }

  predicate GoodGaps(args: seq<string>, gaps: seq<string>) {
    && |gaps| == |args| + 1
    && (forall i | 0 <= i < |gaps| :: AllSpace(gaps[i]))
    && (forall i | 0 < i < |args| :: gaps[i] != "")
  }

  lemma {:induction false} SkipsGap(g: string, t: string)
    requires AllSpace(g)
    ensures SkipSpace(g + t) == SkipSpace(t)
  {
    if g == "" {
      assert g + t == t;
    } else {
      assert (g + t)[1..] == g[1..] + t;
      SkipsGap(g[1..], t);
    }
  }

  lemma {:induction false} NoNul(s: string)
    requires '\0' !in s
    ensures Body(s) == s
  {
    if s != "" { NoNul(s[1..]); }
  }

  lemma {:induction false} EscapedHasNoNul(s: string)
    requires Octets(s)
    ensures '\0' !in Escaped(s)
  {
    if s != "" {
      EscapeHasNoNul(s[0]);
      EscapedHasNoNul(s[1..]);
    }
  }

  lemma EscapeHasNoNul(c: char)
    requires c as int < 256
    ensures '\0' !in Escape(c)
  {}

  lemma {:induction false} LineHasNoNul(args: seq<string>, gaps: seq<string>)
    requires GoodGaps(args, gaps) && forall i | 0 <= i < |args| :: Octets(args[i])
    ensures '\0' !in Line(args, gaps)
    decreases |args|
  {
    hide Escaped, Octets;
    assert AllSpace(gaps[0]);
    if args != [] {
      EscapedHasNoNul(args[0]);
      LineHasNoNul(args[1..], gaps[1..]);
    }
  }

  /** sdssplitargs gets every list of byte strings back, NUL bytes included, from its quoted line. */
  lemma SplitArgsInvertsRepr(args: seq<string>, gaps: seq<string>)
    requires GoodGaps(args, gaps) && forall i | 0 <= i < |args| :: Octets(args[i])
    ensures Split(Body(Line(args, gaps))) == Some(args)
  {
    hide Line, Split, Body, Octets;
    LineHasNoNul(args, gaps);
    NoNul(Line(args, gaps));
    SplitInvertsRepr(args, gaps);
  }

  /** Every list of byte strings comes back from its quoted line. */
  lemma {:induction false} SplitInvertsRepr(args: seq<string>, gaps: seq<string>)
    requires GoodGaps(args, gaps) && forall i | 0 <= i < |args| :: Octets(args[i])
    ensures Split(Line(args, gaps)) == Some(args)
    decreases |args|
  {
    hide Read, Repr, Octets, SkipSpace, AllSpace;
    if args == [] {
      SplitBlank(gaps[0]);
    } else {
      var rest := Line(args[1..], gaps[1..]);
      LineStarts(args[1..], gaps[1..]);
      SplitInvertsRepr(args[1..], gaps[1..]);
      SkipsGap(gaps[0], Repr(args[0]) + rest);
      ReprStarts(args[0], rest);
      ReprReadsBack(args[0], rest);
      SplitStep(Line(args, gaps));
      assert [args[0]] + args[1..] == args;
    }
  }

  lemma SplitBlank(g: string)
    requires AllSpace(g)
    ensures Split(g) == Some([])
  {
    SkipsGap(g, "");
    assert g + "" == g;
  }

  lemma ReprStarts(s: string, t: string)
    requires Octets(s)
    ensures SkipSpace(Repr(s) + t) == Repr(s) + t && Repr(s) + t != ""
  {}

  lemma LineStarts(args: seq<string>, gaps: seq<string>)
    requires |gaps| == |args| + 1 && (forall i | 0 <= i < |args| :: Octets(args[i])) && AllSpace(gaps[0]) && (args != [] ==> gaps[0] != "")
    ensures var t := Line(args, gaps); t == "" || IsSpace(t[0])
  {}
}
