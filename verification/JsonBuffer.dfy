/**
 The two passes of parse_string. The first counts characters to size the result, the
 second writes it; the count is enough exactly when the second pass ends at the quote
 where the first one stopped.
 */
module JsonBuffer {
  import opened Bytes
  import opened Text
  import opened JsonString
  import opened Json
  import opened JsonMinify
  import JsonParse
  import JsonMeaning

  /** The length that the first pass arrives at, behind the opening quote. */
  function FirstPass(t: string): nat {
    if t == "" || t[0] == '"' then 0
    else if t[0] != '\\' then 1 + FirstPass(t[1..])
    else if |t| == 1 then 1
    else 1 + FirstPass(t[2..])
  }

  /** The first pass as a loop; a backslash takes the character behind it along. */
  method CountLiteral(t: string) returns (len: nat)
    ensures len == FirstPass(t)
  {
    len := 0;
    var cur := t;
    while cur != "" && cur[0] != '"'
      invariant len + FirstPass(cur) == FirstPass(t)
      decreases |cur|
    {
      len := len + 1;
      cur := if cur[0] == '\\' && |cur| >= 2 then cur[2..] else cur[1..];
    }
  }

  /** The result fits into the buffer of the first pass, not counting the final NUL. */
  predicate Fits(t: string) {
    Body(t).Done? && |Body(t).value| <= FirstPass(t)
  }

  /** `p` is a literal up to the quote at which the first pass stops. */
  predicate Closed(p: string) {
    if p == "" then false
    else if p[0] == '"' then |p| == 1
    else if p[0] != '\\' then Closed(p[1..])
    else |p| >= 2 && Closed(p[2..])
  }

  /** The second pass jumps over that quote: it takes it for part of an escape. */
  predicate Leaps(p: string)
    decreases |p|
  {
    if p == "" || p[0] == '"' then false
    else if p[0] != '\\' then Leaps(p[1..])
    else
      var n := 1 + ReadEscape(p[1..]).used;
      n >= |p| || Leaps(p[n..])
  }

  // ---- escapes ----

  lemma {:induction false} LastIsQuote(p: string)
    requires Closed(p)
    ensures p != "" && p[|p| - 1] == '"'
    decreases |p|
  {
    if p[0] == '"' {
    } else if p[0] != '\\' {
      LastIsQuote(p[1..]);
    } else {
      LastIsQuote(p[2..]);
    }
  }

  /** Four characters with a quote among them are no hexadecimal number, whatever follows. */
  lemma HexStops(y: string, w: string)
    requires y != "" && y[|y| - 1] == '"'
    ensures ParseHex4(y + w) == ParseHex4(y)
  {
    var x := y + w;
    if |y| <= 4 {
      assert At(x, |y| - 1) == '"' && At(y, |y| - 1) == '"';
    } else {
      assert At(x, 0) == At(y, 0) && At(x, 1) == At(y, 1) && At(x, 2) == At(y, 2) && At(x, 3) == At(y, 3);
    }
  }

  lemma UnicodeStops(y: string, w: string)
    requires y != "" && y[|y| - 1] == '"'
    ensures ReadUnicode(y + w) == ReadUnicode(y)
  {
    hide ParseHex4, Utf8;
    var x := y + w;
    HexStops(y, w);
    if |y| >= 5 {
      assert At(x, 4) == At(y, 4);
      if |y| >= 6 { assert At(x, 5) == At(y, 5); }
      if |y| >= 7 {
        assert x[6..] == y[6..] + w && y[6..][|y| - 7] == '"';
        HexStops(y[6..], w);
      }
    } else {
      ShortHex(y);
    }
  }

  lemma ShortHex(y: string)
    requires 1 <= |y| <= 4 && y[|y| - 1] == '"'
    ensures ParseHex4(y) == 0
  {
    assert At(y, |y| - 1) == '"';
  }

  /** An escape is read alike whatever follows the quote at the end. */
  lemma EscapeStops(y: string, w: string)
    requires y != "" && y[|y| - 1] == '"'
    ensures ReadEscape(y + w) == ReadEscape(y)
  {
    hide ReadUnicode;
    assert (y + w)[0] == y[0];
    if y[0] == 'u' {
      assert |y| >= 2 && (y + w)[1..] == y[1..] + w;
      UnicodeStops(y[1..], w);
    }
  }

  /** An escape stands for at most half as many bytes as it has characters. */
  lemma EscapeHalves(y: string)
    ensures var e := ReadEscape(y); 2 * |e.text| <= 1 + e.used <= 12
  {
    hide ParseHex4;
  }

  // ---- both passes side by side ----

  /** The second pass is at `s`; the first is there too, or has taken `s[0]` along with a backslash. */
  predicate Beside(a: string, s: string) {
    Closed(a) && (a == s || a == "\\" + s)
  }

  /** One character further: the first pass counts it, unless it is a backslash that starts a pair. */
  lemma Advance(a: string, s: string) returns (b: string)
    requires Beside(a, s) && |s| >= 2
    ensures Beside(b, s[1..])
    ensures if a == s && s[0] == '\\' then b == a && b != s[1..] else FirstPass(a) == 1 + FirstPass(b) && b == s[1..]
  {
    if a == s {
      b := if s[0] == '\\' then a else s[1..];
      if s[0] == '\\' { assert a == "\\" + s[1..]; }
    } else {
      b := s[1..];
      assert a[2..] == s[1..];
    }
  }

  function Off(a: string, s: string): nat {
    if a == s then 0 else 1
  }

  /** Over `k` characters the first pass counts at least half of them. */
  lemma {:induction false} AdvanceBy(a: string, s: string, k: nat) returns (b: string)
    requires Beside(a, s) && k < |s|
    ensures Beside(b, s[k..])
    ensures 2 * FirstPass(a) + Off(b, s[k..]) >= k + 2 * FirstPass(b) + Off(a, s)
    decreases k
  {
    hide FirstPass, Closed;
    if k == 0 {
      b := a;
      assert s[0..] == s;
    } else {
      var c := Advance(a, s);
      b := AdvanceBy(c, s[1..], k - 1);
      assert s[1..][k - 1..] == s[k..];
    }
  }

  lemma BesideEnds(a: string, s: string)
    requires Beside(a, s)
    ensures s != "" && s[|s| - 1] == '"'
  {
    hide Closed;
    LastIsQuote(a);
    ClosedIsNoBackslash();
    assert "\\" + "" == "\\";
  }

  lemma ClosedIsNoBackslash()
    ensures !Closed("\\")
  {}

  /** As long as the second pass does not jump over the quote it writes no more than was counted. */
  lemma {:induction false} NoMoreThanCounted(a: string, s: string, w: string)
    requires Beside(a, s) && !Leaps(s)
    ensures Body(s + w).Done? && |Body(s + w).value| <= FirstPass(a)
    decreases |s|
  {
    hide Body, FirstPass, Closed, ReadEscape;
    BesideEnds(a, s);
    var t := s + w;
    JsonParse.BodyStep(t);
    assert t[0] == s[0];
    if s[0] != '"' {
      assert t[1..] == s[1..] + w && s[1..][|s| - 2] == '"';
      if s[0] != '\\' {
        var b := Advance(a, s);
        NoMoreThanCounted(b, s[1..], w);
      } else {
        var n := Bite(s);
        EscapeHalves(s[1..]);
        EscapeStops(s[1..], w);
        assert t[n..] == s[n..] + w;
        var b := AdvanceBy(a, s, n);
        NoMoreThanCounted(b, s[n..], w);
      }
    }
  }

  /** How far one turn of the second pass moves. */
  function Bite(s: string): (n: nat)
    requires s != ""
    ensures n >= 1
  {
    if s[0] != '\\' then 1 else 1 + ReadEscape(s[1..]).used
  }

  // ---- behind a quote that is jumped over ----

  function Xs(n: nat): string {
    if n == 0 then "" else "x" + Xs(n - 1)
  }

  lemma {:induction false} XsCopied(n: nat)
    ensures Body(Xs(n)).Done? && |Body(Xs(n)).value| == n && |Xs(n)| == n
  {
    if n > 0 {
      XsCopied(n - 1);
      assert Xs(n)[1..] == Xs(n - 1);
    }
  }

  lemma {:induction false} XsTail(n: nat, k: nat)
    requires k <= n
    ensures |Xs(n)| == n && Xs(n)[k..] == Xs(n - k)
    decreases n
  {
    if n > 0 {
      XsTail(n - 1, if k == 0 then 0 else k - 1);
      if k > 0 { assert Xs(n)[k..] == Xs(n - 1)[k - 1..]; }
    }
  }

  /** Behind the jump the second pass goes on writing. */
  lemma {:induction false} GoesOn(s: string, n: nat)
    requires Leaps(s) && s[|s| - 1] == '"' && n >= 12
    ensures var p := Body(s + Xs(n)); p.Done? && |p.value| + 12 >= n
    decreases |s|
  {
    hide Body, ReadEscape, Xs;
    var t := s + Xs(n);
    JsonParse.BodyStep(t);
    assert t[0] == s[0];
    var k := Bite(s);
    EscapeHalves(s[1..]);
    if s[0] == '\\' {
      assert |s| >= 2;
      assert t[1..] == s[1..] + Xs(n) && s[1..][|s| - 2] == '"';
      EscapeStops(s[1..], Xs(n));
    }
    if k >= |s| {
      XsTail(n, k - |s|);
      assert t[k..] == Xs(n)[k - |s|..];
      XsCopied(n - (k - |s|));
    } else {
      assert t[k..] == s[k..] + Xs(n) && s[k..][|s| - k - 1] == '"';
      GoesOn(s[k..], n);
    }
  }

  // ---- the law ----

  lemma {:induction false} FirstPassStops(p: string, w: string)
    requires Closed(p)
    ensures FirstPass(p + w) == FirstPass(p)
    decreases |p|
  {
    assert (p + w)[0] == p[0];
    if p[0] == '"' {
    } else if p[0] != '\\' {
      FirstPassStops(p[1..], w);
      assert (p + w)[1..] == p[1..] + w;
    } else {
      FirstPassStops(p[2..], w);
      assert (p + w)[2..] == p[2..] + w;
    }
  }

  /** The counted length is enough for everything that may follow exactly when no escape swallows the quote. */
  lemma BufferExactly(p: string)
    requires Closed(p)
    ensures (forall w: string :: Fits(p + w)) <==> !Leaps(p)
  {
    hide Body, FirstPass, Leaps, Closed, Xs;
    if Leaps(p) {
      var w := Xs(FirstPass(p) + 13);
      LastIsQuote(p);
      GoesOn(p, FirstPass(p) + 13);
      FirstPassStops(p, w);
      assert !Fits(p + w);
    } else {
      forall w: string ensures Fits(p + w) {
        NoMoreThanCounted(p, p, w);
        FirstPassStops(p, w);
      }
    }
  }

  /** Literals whose \u are followed by four plain characters never have their quote swallowed. */
  lemma {:induction false} SoundDoesNotLeap(t: string)
    requires JsonMeaning.SoundBody(t)
    ensures Copied(t).Some? && Closed(t[..Copied(t).value]) && !Leaps(t[..Copied(t).value])
    decreases |t|
  {
    hide Copied, ReadEscape;
    JsonMeaning.SoundCloses(t);
    var n := Copied(t).value;
    var p := t[..n];
    CopiedCloses(t);
    if t[0] != '"' {
      JsonMeaning.BiteSound(t, "");
      var b := JsonMeaning.FirstBite(t);
      SoundDoesNotLeap(t[b.len..]);
      assert p + "" == p;
      assert p[b.len..] == t[b.len..][..n - b.len];
      assert p[0] == t[0];
    }
  }

  lemma {:induction false} CopiedCloses(t: string)
    requires Copied(t).Some?
    ensures Closed(t[..Copied(t).value])
    decreases |t|
  {
    var p := t[..Copied(t).value];
    if t[0] == '"' {
    } else if t[0] == '\\' {
      CopiedCloses(t[2..]);
      assert p[2..] == t[2..][..|p| - 2];
    } else {
      CopiedCloses(t[1..]);
      assert p[1..] == t[1..][..|p| - 1];
    }
  }

  /** So a closed literal always fits. */
  lemma SoundFits(t: string)
    requires JsonMeaning.SoundBody(t)
    ensures Fits(t)
  {
    hide Fits, Leaps, Closed, Copied;
    SoundDoesNotLeap(t);
    var n := Copied(t).value;
    BufferExactly(t[..n]);
    assert t == t[..n] + t[n..];
  }

  /** A short \u in front of the quote: three characters are counted and four written. */
  lemma CountTooSmall()
    ensures exists t :: NoNul(t) && Body(t) == Done("xxxx", "") && FirstPass(t) == 3
  {
    hide Body, FirstPass;
    var t := ['\\', 'u', '1', '2', '"', '3', 'x', 'x', 'x', 'x', '"'];
    CountThree(t);
    SwallowedQuote(t);
    assert NoNul(t);
  }

  lemma CountThree(t: string)
    requires |t| >= 5 && t[0] == '\\' && t[1] == 'u' && t[2] == '1' && t[3] == '2' && t[4] == '"'
    ensures FirstPass(t) == 3
  {
    assert t[2..][1..] == t[3..] && t[3..][1..] == t[4..];
    assert FirstPass(t[4..]) == 0;
    assert FirstPass(t[3..]) == 1;
  }

  lemma SwallowedQuote(t: string)
    requires t == ['\\', 'u', '1', '2', '"', '3', 'x', 'x', 'x', 'x', '"']
    ensures Body(t) == Done("xxxx", "")
  {
    hide Body;
    var y := t[2..];
    assert At(y, 2) == '"';
    assert ParseHex4(y) == 0;
    assert t[1..][1..] == y;
    assert ReadEscape(t[1..]) == Piece("", 5);
    JsonParse.BodyStep(t);
    Copies(t, 6, "xxx");
    Copies(t, 7, "xx");
    Copies(t, 8, "x");
    Copies(t, 9, "");
    JsonParse.BodyStep(t[10..]);
    assert t[10..][1..] == "" && "x" + "xxx" == "xxxx" && "x" + "xx" == "xxx" && "x" + "x" == "xx" && "x" + "" == "x";
    assert "" + "xxxx" == "xxxx";
  }

  lemma Copies(t: string, i: nat, v: string)
    requires i < |t| && t[i] == 'x'
    ensures Body(t[i + 1..]) == Done(v, "") ==> Body(t[i..]) == Done("x" + v, "")
  {
    hide Body;
    JsonParse.BodyStep(t[i..]);
    assert t[i..][1..] == t[i + 1..] && [t[i]] == "x";
  }
}
