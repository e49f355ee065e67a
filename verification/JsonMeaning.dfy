/** Minifying any text that the parser accepts as a whole leaves its meaning alone. */
module JsonMeaning {
  import opened Bytes
  import opened Text
  import opened JsonString
  import opened Json
  import opened JsonLaws
  import opened JsonMinify
  import JsonParse

  // ---- literals that parser and minifier read alike ----

  predicate FourPlain(t: string) {
    |t| >= 4 && forall i | 0 <= i < 4 :: t[i] != '"' && t[i] != '\\'
  }

  /** A closed literal: it ends with a quote, and no quote or backslash hides behind a \u. */
  predicate SoundBody(t: string) {
    if t == "" then false
    else if t[0] == '"' then true
    else if t[0] != '\\' then SoundBody(t[1..])
    else if |t| == 1 then false
    else if t[1] == 'u' then FourPlain(t[2..]) && SoundBody(t[6..])
    else SoundBody(t[2..])
  }

  /** Every literal of the text is closed in that sense. */
  predicate Sound(t: string)
    decreases |t|
  {
    if t == "" then true
    else if t[0] != '"' then Sound(t[1..])
    else SoundBody(t[1..]) && Copied(t[1..]).Some? && Sound(t[1 + Copied(t[1..]).value..])
  }

  lemma HexLocal(t: string, k: nat, w: string)
    requires 4 <= k <= |t|
    ensures ParseHex4(t[..k] + w) == ParseHex4(t)
  {
    var x := t[..k] + w;
    assert x[0] == t[0] && x[1] == t[1] && x[2] == t[2] && x[3] == t[3];
  }

  /** What comes behind a \u escape, or behind a pair of them, does not change how it is read. */
  lemma UnicodeLocal(t: string, k: nat, w: string)
    requires 5 <= k <= |t| && (t[4] == '\\' ==> 6 <= k) && (t[4] == '\\' && t[5] == 'u' ==> 10 <= k)
    ensures ReadUnicode(t[..k] + w) == ReadUnicode(t)
  {
    hide Utf8, ParseHex4;
    var x := t[..k] + w;
    HexLocal(t, k, w);
    assert x[4] == t[4];
    if t[4] == '\\' {
      assert x[5] == t[5];
      if t[5] == 'u' {
        assert x[6..] == t[6..][..k - 6] + w;
        HexLocal(t[6..], k - 6, w);
      }
    }
  }

  lemma {:induction false} SoundCloses(t: string)
    requires SoundBody(t)
    ensures Copied(t).Some? && Copied(t).value >= 1
  {
    if t[0] != '"' {
      if t[0] != '\\' {
        SoundCloses(t[1..]);
      } else if t[1] == 'u' {
        SoundCloses(t[6..]);
        CopiedUnicode(t);
      } else {
        SoundCloses(t[2..]);
      }
    }
  }

  lemma CopiedUnicode(t: string)
    requires |t| >= 6 && t[0] == '\\' && t[1] == 'u' && FourPlain(t[2..])
    ensures Copied(t) == if Copied(t[6..]).None? then None else Some(6 + Copied(t[6..]).value)
  {
    hide Copied;
    CopiedPair(t);
    var a, b := t[2..6], t[6..];
    assert t[2..] == a + b;
    forall i | 0 <= i < |a| ensures a[i] != '"' && a[i] != '\\' { assert a[i] == t[2..][i]; }
    CopiedOver(a, b);
  }

  /** Behind the four characters of a \u a closed literal goes on closed. */
  lemma HexSound(t: string)
    requires SoundBody(t) && t[0] == '\\' && |t| >= 2 && t[1] == 'u'
    ensures |t| >= 7 && SoundBody(t[6..]) && Copied(t[6..]).Some? && Copied(t[6..]).value >= 1
    ensures Copied(t) == Some(6 + Copied(t[6..]).value)
    ensures t[6] == '\\' ==> |t| >= 8 && Copied(t[6..]).value >= 2
  {
    hide Copied;
    CopiedUnicode(t);
    SoundCloses(t[6..]);
    assert t[6..][0] == t[6];
    if t[6] == '\\' { CopiedPair(t[6..]); }
  }

  lemma UsedExactly(y: string)
    ensures var used := ReadUnicode(y).used;
            used == 5 || (used == 11 && At(y, 4) == '\\' && At(y, 5) == 'u')
  {
    hide ParseHex4, Utf8;
  }

  /** A \u escape, or a surrogate pair, in a closed literal: the literal goes on closed behind it. */
  lemma UnicodeSound(t: string)
    requires SoundBody(t) && t[0] == '\\' && |t| >= 2 && t[1] == 'u'
    ensures var used := ReadUnicode(t[2..]).used;
            && 1 + used < |t| && SoundBody(t[1 + used..]) && Copied(t[1 + used..]).Some?
            && Copied(t) == Some(1 + used + Copied(t[1 + used..]).value)
    ensures |t| >= 7 && Copied(t).value >= 7 && (t[6] == '\\' ==> |t| >= 8 && Copied(t).value >= 8)
    ensures t[6] == '\\' && t[7] == 'u' ==> Copied(t).value >= 12
  {
    hide Copied, ReadUnicode, SoundBody;
    HexSound(t);
    UsedExactly(t[2..]);
    assert t[2..][4] == t[6];
    if t[6] == '\\' && t[7] == 'u' {
      var u := t[6..];
      assert u[0] == t[6] && u[1] == t[7];
      HexSound(u);
      assert u[6..] == t[12..];
    } else if t[6] == '\\' {
      assert t[2..][5] == t[7];
    }
  }

  /** What one step of the literal loop takes: its characters and what they stand for. */
  datatype Bite = Bite(text: string, len: nat)

  function FirstBite(t: string): (b: Bite)
    requires t != ""
    ensures b.len >= 1
  {
    if t[0] != '\\' then Bite([t[0]], 1) else var e := ReadEscape(t[1..]); Bite(e.text, 1 + e.used)
  }

  lemma BiteStep(t: string)
    requires t != "" && t[0] != '"' && FirstBite(t).len <= |t|
    ensures Body(t) == Prepend(FirstBite(t).text, Body(t[FirstBite(t).len..]))
  {
    hide Body, ReadEscape, Prepend;
    JsonParse.BodyStep(t);
  }

  /** A bite leaves a closed literal, and is the same whatever comes behind the closing quote. */
  ghost predicate GoodBite(t: string, w: string)
    requires t != ""
  {
    var b := FirstBite(t);
    && b.len < |t| && SoundBody(t[b.len..]) && Copied(t[b.len..]).Some? && Copied(t) == Some(b.len + Copied(t[b.len..]).value)
    && FirstBite(t[..Copied(t).value] + w) == b
  }

  lemma PlainBite(t: string, w: string)
    requires SoundBody(t) && t[0] != '"' && t[0] != '\\'
    ensures GoodBite(t, w)
  {
    hide Copied, ReadEscape;
    SoundCloses(t[1..]);
    PlainStep(t);
    assert (t[..Copied(t).value] + w)[0] == t[0];
  }

  lemma ShortBite(t: string, w: string)
    requires SoundBody(t) && |t| >= 2 && t[0] == '\\' && t[1] != 'u'
    ensures GoodBite(t, w)
  {
    hide Copied, ReadUnicode;
    CopiedPair(t);
    SoundCloses(t[2..]);
    var x := t[..Copied(t).value] + w;
    assert x[0] == t[0] && x[1..][0] == t[1] && t[1..][0] == t[1];
  }

  lemma UnicodeBite(t: string, w: string)
    requires SoundBody(t) && |t| >= 2 && t[0] == '\\' && t[1] == 'u'
    ensures GoodBite(t, w)
  {
    hide Copied, ReadUnicode, SoundBody;
    UnicodeSound(t);
    var n := Copied(t).value;
    var x := t[..n] + w;
    assert t[2..][4] == t[6];
    if t[6] == '\\' { assert t[2..][5] == t[7]; }
    UnicodeLocal(t[2..], n - 2, w);
    UnicodeEscape(t);
    assert x[0] == t[0] && x[1] == t[1] && x[2..] == t[2..][..n - 2] + w;
    UnicodeEscape(x);
  }

  lemma UnicodeEscape(t: string)
    requires |t| >= 2 && t[0] == '\\' && t[1] == 'u'
    ensures FirstBite(t) == var e := ReadUnicode(t[2..]); Bite(e.text, 1 + e.used)
  {
    hide ReadUnicode;
    assert t[1..][0] == 'u' && t[1..][1..] == t[2..];
  }

  lemma BiteSound(t: string, w: string)
    requires SoundBody(t) && t[0] != '"'
    ensures GoodBite(t, w)
  {
    hide GoodBite;
    if t[0] != '\\' { PlainBite(t, w); } else if t[1] == 'u' { UnicodeBite(t, w); } else { ShortBite(t, w); }
  }

  lemma PlainStep(t: string)
    requires t != "" && t[0] != '"' && t[0] != '\\' && Copied(t[1..]).Some?
    ensures Copied(t) == Some(1 + Copied(t[1..]).value)
  {}

  /** A closed literal is read up to its closing quote, whatever comes behind it. */
  lemma {:induction false} BodyLocal(t: string, w: string)
    requires SoundBody(t)
    ensures Copied(t).Some?
    ensures var n := Copied(t).value;
            Body(t).Done? && Body(t).rest == t[n..] && Body(t[..n] + w) == Done(Body(t).value, w)
    decreases |t|
  {
    hide Copied, Body, FirstBite;
    SoundCloses(t);
    if t[0] == '"' {
      QuoteCloses(t, w);
    } else {
      var b, n := FirstBite(t), Copied(t).value;
      BiteSound(t, w);
      var x := t[..n] + w;
      var rest := t[b.len..];
      BodyLocal(rest, w);
      BiteStep(t);
      assert x[0] == t[0];
      BiteStep(x);
      assert x[b.len..] == rest[..n - b.len] + w;
      assert rest[n - b.len..] == t[n..];
    }
  }

  lemma QuoteCloses(t: string, w: string)
    requires t != "" && t[0] == '"'
    ensures Copied(t) == Some(1) && Body(t) == Done("", t[1..]) && Body(t[..1] + w) == Done("", w)
  {
    assert (t[..1] + w)[1..] == w;
  }

  // ---- the parts of a text ----

  /** Minifying `t` is writing `p` and minifying `rest`. */
  ghost predicate Becomes(t: string, p: string, rest: string) {
    Sound(rest) && Mini(t) == Before(p, Mini(rest))
  }

  lemma BecomesNothing(t: string)
    requires Sound(t)
    ensures Becomes(t, "", t)
  {
    BeforeNothing(Mini(t));
  }

  lemma BecomesThen(t: string, p: string, u: string, q: string, rest: string)
    requires Becomes(t, p, u) && Becomes(u, q, rest)
    ensures Becomes(t, p + q, rest)
  {
    hide Before, Mini, Sound;
    BeforeTwice(p, q, Mini(rest));
  }

  /** A character outside literals that is kept. */
  lemma BecomesItself(t: string)
    requires Sound(t) && t != "" && !White(t[0]) && t[0] != '"' && t[0] != '/'
    ensures Becomes(t, [t[0]], t[1..])
  {
    hide Before, Mini;
    MiniOther(t);
  }

  lemma {:induction false} BlankKept(t: string) returns (b: string)
    requires Sound(t)
    ensures AllBlank(b) && Becomes(t, b, Skip(t)) && (t == "" || !Blank(t[0]) ==> b == "")
    decreases |t|
  {
    hide Becomes, Mini, Before;
    if t == "" || !Blank(t[0]) {
      b := "";
      BecomesNothing(t);
    } else {
      SoundRest(t);
      var c := BlankKept(t[1..]);
      if White(t[0]) {
        b := c;
        WhiteDropped(t, c);
      } else {
        BecomesItself(t);
        BecomesThen(t, [t[0]], t[1..], c, Skip(t[1..]));
        b := [t[0]] + c;
      }
    }
  }

  lemma SoundRest(t: string)
    requires Sound(t) && t != "" && t[0] != '"'
    ensures Sound(t[1..])
  {}

  lemma WhiteDropped(t: string, b: string)
    requires t != "" && White(t[0]) && Becomes(t[1..], b, Skip(t[1..]))
    ensures Becomes(t, b, Skip(t))
  {
    hide Before;
  }

  /** A text without quotes, white space and slashes is kept as it is. */
  lemma {:induction false} PlainKept(p: string, rest: string)
    requires Plain(p) && Sound(p + rest)
    ensures Becomes(p + rest, p, rest)
  {
    hide Mini, Before;
    MiniPlain(p, rest);
    PlainSound(p, rest);
  }

  lemma {:induction false} PlainSound(p: string, rest: string)
    requires Plain(p) && Sound(p + rest)
    ensures Sound(rest)
  {
    if p == "" {
      assert p + rest == rest;
    } else {
      assert (p + rest)[1..] == p[1..] + rest;
      PlainSound(p[1..], rest);
    }
  }

  ghost predicate ReadsLiteral(p: string, s: string) {
    p != "" && p[0] == '"' && forall w: string :: Literal(p + w) == Done(s, w)
  }

  lemma LiteralKept(t: string) returns (p: string)
    requires Sound(t) && At(t, 0) == '"'
    ensures Literal(t).Done? && Becomes(t, p, Literal(t).rest) && ReadsLiteral(p, Literal(t).value)
  {
    hide Mini, Before, Body, Copied, SoundBody;
    var n := Copied(t[1..]).value;
    p := t[..n + 1];
    BodyLocal(t[1..], "");
    LiteralStep(t, 0);
    assert t[0..] == t && t[1..][n..] == t[1 + n..] && t[0..0 + 1 + n] == p;
    forall w: string ensures Literal(p + w) == Done(Literal(t).value, w) {
      BodyLocal(t[1..], w);
      assert (p + w)[1..] == t[1..][..n] + w;
    }
  }

  ghost predicate ReadsValue(p: string, j: Json) {
    p != "" && !Blank(p[0]) && p[0] != ']' && forall w | Clear(w) :: ParseValue(p + w) == Done(j, w)
  }

  lemma LiteralValueKept(t: string) returns (p: string)
    requires Sound(t) && At(t, 0) == '"'
    ensures Literal(t).Done? && Becomes(t, p, Literal(t).rest) && ReadsValue(p, String(Literal(t).value))
  {
    hide Literal, Sound, ParseItems, ParseMembers, ParseNumber, Becomes;
    p := LiteralKept(t);
    var s := Literal(t).value;
    forall w | Clear(w) ensures ParseValue(p + w) == Done(String(s), w) {
      assert Literal(p + w) == Done(s, w) && (p + w)[0] == '"';
      assert "null"[0] == 'n' && "false"[0] == 'f' && "true"[0] == 't';
    }
  }

  lemma WordKept(t: string, word: Json)
    requires Sound(t) && (word.Null? || word.False? || word.True?) && Print(word, 0, false) <= t
    ensures var p := Print(word, 0, false); Becomes(t, p, t[|p|..]) && ReadsValue(p, word)
  {
    hide Becomes, Sound, ParseValue;
    var p := Print(word, 0, false);
    assert t == p + t[|p|..];
    PlainKept(p, t[|p|..]);
    forall w | Clear(w) ensures ParseValue(p + w) == Done(word, w) { WordValue(word, w, 0, false); }
  }

  // ---- numbers ----

  /** Sign, leading zero and digits of a number, and a rest that does not belong to it. */
  predicate NumberForm(a: string, z: string, d: string, rest: string) {
    && (a == "" || a == "-") && (z == "" || z == "0") && AllDigits(d)
    && (a == "" ==> At(z + (d + rest), 0) != '-')
    && (d != "" ==> d[0] != '0' && !IsDigit(At(rest, 0)))
    && (d == "" ==> !('1' <= At(rest, 0) <= '9') && (z == "" ==> At(rest, 0) != '0'))
  }

  /** What parse_number makes of such a text. */
  function Finish(a: string, d: string, rest: string): Parse<Json>
    requires AllDigits(d)
  {
    var n := if a == "-" then -(Value(d) as int) else Value(d);
    if (At(rest, 0) == '.' && IsDigit(At(rest, 1))) || At(rest, 0) == 'e' || At(rest, 0) == 'E' || !(INT_MIN <= n <= INT_MAX)
    then Stop(OtherNumber) else Done(Number(n), rest)
  }

  lemma SignTaken(a: string, u: string)
    requires (a == "" && At(u, 0) != '-') || a == "-"
    ensures (At(a + u, 0) == '-') == (a == "-") && (if At(a + u, 0) == '-' then (a + u)[1..] else a + u) == u
  {
    if a == "" { assert a + u == u; } else { assert (a + u)[1..] == u; }
  }

  lemma ZeroTaken(z: string, v: string)
    requires (z == "" && At(v, 0) != '0') || z == "0"
    ensures (if At(z + v, 0) == '0' then (z + v)[1..] else z + v) == v
  {
    if z == "" { assert z + v == v; } else { assert (z + v)[1..] == v; }
  }

  lemma DigitsTaken(d: string, rest: string)
    requires AllDigits(d) && (d != "" ==> d[0] != '0' && !IsDigit(At(rest, 0))) && (d == "" ==> !('1' <= At(rest, 0) <= '9'))
    ensures (if '1' <= At(d + rest, 0) <= '9' then DigitRun(d + rest) else 0) == |d|
    ensures (d + rest)[..|d|] == d && (d + rest)[|d|..] == rest
  {
    hide DigitRun;
    if d == "" { assert d + rest == rest; } else { RunOfDigits(d, rest); }
  }

  /** How many digits parse_number takes behind sign and zero. */
  function Taken(v: string): (n: nat)
    ensures n <= |v| && AllDigits(v[..n])
  {
    if '1' <= At(v, 0) <= '9' then DigitRun(v) else 0
  }

  lemma NumberUnfold(t: string, u: string, v: string)
    requires u == (if At(t, 0) == '-' then t[1..] else t) && v == (if At(u, 0) == '0' then u[1..] else u)
    ensures ParseNumber(t) == Finish(if At(t, 0) == '-' then "-" else "", v[..Taken(v)], v[Taken(v)..])
  {
    hide Value, DigitRun, At, IsDigit;
  }

  lemma FormParses(a: string, z: string, d: string, rest: string)
    requires NumberForm(a, z, d, rest)
    ensures ParseNumber(a + (z + (d + rest))) == Finish(a, d, rest)
  {
    hide ParseNumber, Finish, DigitRun, At;
    FormFacts(a, z, d, rest);
    SignTaken(a, z + (d + rest));
    ZeroTaken(z, d + rest);
    DigitsTaken(d, rest);
    NumberUnfold(a + (z + (d + rest)), z + (d + rest), d + rest);
  }

  lemma FormFacts(a: string, z: string, d: string, rest: string)
    requires NumberForm(a, z, d, rest)
    ensures ((a == "" && At(z + (d + rest), 0) != '-') || a == "-") && ((z == "" && At(d + rest, 0) != '0') || z == "0")
  {
    assert d == "" ==> d + rest == rest;
  }

  lemma DigitPart(v: string)
    ensures var d, rest := v[..Taken(v)], v[Taken(v)..];
            && v == d + rest && AllDigits(d) && (d != "" ==> d[0] != '0' && !IsDigit(At(rest, 0)))
            && (d == "" ==> !('1' <= At(rest, 0) <= '9') && rest == v)
  {
    if '1' <= At(v, 0) <= '9' { DigitsStart(v); }
  }

  /** The parts of the number that a text starts with. */
  lemma NumberParts(t: string) returns (a: string, z: string, d: string, rest: string)
    requires StartsNumber(At(t, 0))
    ensures NumberForm(a, z, d, rest) && t == a + (z + (d + rest)) && a + z + d != ""
  {
    hide Taken;
    a := if At(t, 0) == '-' then "-" else "";
    var u := t[|a|..];
    z := if At(u, 0) == '0' then "0" else "";
    var v := u[|z|..];
    d, rest := v[..Taken(v)], v[Taken(v)..];
    DigitPart(v);
    PrefixBack(a, t);
    PrefixBack(z, u);
    PartsNotEmpty(t, a, z, d, u, v);
  }

  lemma PrefixBack(a: string, t: string)
    requires a == "" || (t != "" && a == [t[0]])
    ensures |a| <= |t| && t == a + t[|a|..]
  {}

  lemma PartsNotEmpty(t: string, a: string, z: string, d: string, u: string, v: string)
    requires StartsNumber(At(t, 0)) && (a == "" ==> At(t, 0) != '-' && u == t) && (z == "" ==> At(u, 0) != '0' && v == u)
    requires d == v[..Taken(v)]
    ensures a + z + d != ""
  {
    if a == "" && z == "" { DigitsStart(v); }
  }

  lemma DigitsStart(t: string)
    requires t != "" && IsDigit(t[0])
    ensures DigitRun(t) >= 1
  {}

  /** The same number in front of anything that does not continue it. */
  lemma FormClear(a: string, z: string, d: string, rest: string, w: string)
    requires NumberForm(a, z, d, rest) && a + z + d != "" && Finish(a, d, rest).Done? && Clear(w)
    ensures NumberForm(a, z, d, w) && Finish(a, d, w) == Done(Finish(a, d, rest).value, w)
  {
    hide Value;
    assert d != "" ==> (z + (d + w))[0] == (z + (d + rest))[0];
    assert z != "" ==> (z + (d + w))[0] == '0';
  }

  lemma NumberKept(t: string) returns (p: string)
    requires Sound(t) && StartsNumber(At(t, 0)) && ParseNumber(t).Done?
    ensures Becomes(t, p, ParseNumber(t).rest) && ReadsValue(p, ParseNumber(t).value)
  {
    hide Becomes, Sound, ParseNumber, NumberForm, Finish, ParseItems, ParseMembers, Literal;
    var a, z, d, rest := NumberParts(t);
    p := a + (z + d);
    assert t == p + rest && a + z + d == p;
    NumberPlain(a, z, d, rest);
    FormParses(a, z, d, rest);
    FinishRest(a, d, rest);
    PlainKept(p, rest);
    var j := ParseNumber(t).value;
    forall w | Clear(w) ensures ParseValue(p + w) == Done(j, w) {
      FormClear(a, z, d, rest, w);
      FormParses(a, z, d, w);
      assert p + w == a + (z + (d + w));
      assert (p + w)[0] == p[0] && "null"[0] == 'n' && "false"[0] == 'f' && "true"[0] == 't';
    }
  }

  lemma FinishRest(a: string, d: string, rest: string)
    requires AllDigits(d)
    ensures Finish(a, d, rest).Done? ==> Finish(a, d, rest).rest == rest
  {}

  lemma NumberPlain(a: string, z: string, d: string, rest: string)
    requires NumberForm(a, z, d, rest) && a + (z + d) != ""
    ensures AllDigits(d) && Plain(a + (z + d)) && StartsNumber((a + (z + d))[0])
  {
    var p := a + (z + d);
    forall i | 0 <= i < |p| ensures StartsNumber(p[i]) {}
  }

  // ---- arrays and objects ----

  ghost predicate ReadsItems(p: string, items: Items) {
    forall w: string :: ParseItems(p + w) == Done(items, w)
  }

  ghost predicate ReadsMembers(p: string, members: Members) {
    forall w: string :: ParseMembers(p + w) == Done(members, w)
  }

  /** A text that ends a value in a list: blanks, then a comma or a closing bracket. */
  lemma ClearEnd(c: string, y: string)
    requires AllBlank(c) && y != "" && (y[0] == ',' || y[0] == ']' || y[0] == '}')
    ensures Clear(c + y) && Skip(c + y) == y
  {
    SkipOver(c, y);
    if c != "" { assert (c + y)[0] == c[0]; }
  }

  /** How the loop of parse_array goes on after an item. */
  function AfterItem(v: Json, y: string): Parse<Items> {
    if At(y, 0) == ',' then (match ParseItems(y[1..]) case Done(more, end) => Done(Item(v, more), end) case Stop(x) => Stop(x))
    else if At(y, 0) == ']' then Done(Item(v, NoItem), y[1..])
    else Stop(Malformed)
  }

  lemma ItemsUnfold(t: string)
    ensures ParseItems(t) == match ParseValue(Skip(t)) case Stop(x) => Stop(x) case Done(v, rest) => AfterItem(v, Skip(rest))
  {
    hide ParseValue, Skip;
  }

  lemma ItemRead(b: string, p: string, v: Json, c: string, y: string)
    requires AllBlank(b) && AllBlank(c) && ReadsValue(p, v) && y != "" && (y[0] == ',' || y[0] == ']')
    ensures ParseItems(b + (p + (c + y))) == AfterItem(v, y)
  {
    hide ParseValue, ParseItems, AfterItem, Skip;
    var x := p + (c + y);
    ClearEnd(c, y);
    SkipOver(b, x);
    NoSkip(x);
    ItemsUnfold(b + x);
  }

  lemma LastItemReads(b: string, p: string, v: Json, c: string)
    requires AllBlank(b) && AllBlank(c) && ReadsValue(p, v)
    ensures ReadsItems(b + (p + (c + "]")), Item(v, NoItem))
  {
    hide ParseValue, ParseItems, AllBlank, ReadsValue;
    forall w: string ensures ParseItems(b + (p + (c + "]")) + w) == Done(Item(v, NoItem), w) {
      ItemRead(b, p, v, c, "]" + w);
      assert b + (p + (c + "]")) + w == b + (p + (c + ("]" + w))) && ("]" + w)[1..] == w;
    }
  }

  lemma NextItemReads(b: string, p: string, v: Json, c: string, q: string, more: Items)
    requires AllBlank(b) && AllBlank(c) && ReadsValue(p, v) && ReadsItems(q, more)
    ensures ReadsItems(b + (p + (c + ("," + q))), Item(v, more))
  {
    hide ParseValue, ParseItems, AllBlank, ReadsValue;
    forall w: string ensures ParseItems(b + (p + (c + ("," + q))) + w) == Done(Item(v, more), w) {
      var y := "," + (q + w);
      ItemRead(b, p, v, c, y);
      assert b + (p + (c + ("," + q))) + w == b + (p + (c + y)) && y[1..] == q + w;
    }
  }

  lemma ItemsKept(t: string) returns (q: string)
    requires Sound(t) && ParseItems(t).Done?
    ensures Becomes(t, q, ParseItems(t).rest) && ReadsItems(q, ParseItems(t).value)
    ensures t != "" && !Blank(t[0]) ==> q != "" && !Blank(q[0]) && q[0] != ']'
    decreases |t|, 3
  {
    hide ParseValue, ParseItems, Sound, Becomes, Skip, ReadsItems;
    ItemsUnfold(t);
    var b := BlankKept(t);
    BecomesSound(t, b, Skip(t));
    var p := ValueKept(Skip(t));
    var v, rest := ParseValue(Skip(t)).value, ParseValue(Skip(t)).rest;
    BecomesSound(Skip(t), p, rest);
    var c := BlankKept(rest);
    var y := Skip(rest);
    BecomesSound(rest, c, y);
    BecomesItself(y);
    BecomesSound(y, [y[0]], y[1..]);
    var tail: string;
    if y[0] == ',' {
      var more := ItemsKept(y[1..]);
      tail := "," + more;
      BecomesThen(y, ",", y[1..], more, ParseItems(t).rest);
      NextItemReads(b, p, v, c, more, ParseItems(y[1..]).value);
    } else {
      tail := "]";
      LastItemReads(b, p, v, c);
    }
    BecomesThen(rest, c, y, tail, ParseItems(t).rest);
    BecomesThen(Skip(t), p, rest, c + tail, ParseItems(t).rest);
    BecomesThen(t, b, Skip(t), p + (c + tail), ParseItems(t).rest);
    q := b + (p + (c + tail));
  }

  lemma BecomesSound(t: string, p: string, rest: string)
    requires Becomes(t, p, rest)
    ensures Sound(rest)
  {}

  /** How the loop of parse_object goes on after the literal of a key. */
  function AfterKey(k: string, u: string): Parse<Members> {
    if At(u, 0) != ':' then Stop(Malformed)
    else match ParseValue(Skip(u[1..])) case Stop(x) => Stop(x) case Done(v, rest) => AfterMember(k, v, Skip(rest))
  }

  lemma MembersUnfolded(t: string)
    ensures ParseMembers(t) == match Literal(Skip(t)) case Stop(x) => Stop(x) case Done(k, rest) => AfterKey(k, Skip(rest))
  {
    hide ParseValue, Skip, Literal;
  }

  /** The text of a member and what comes after it, blanks included. */
  function MemberText(b: string, p: string, c: string, d: string, q: string, e: string, y: string): string {
    b + (p + (c + (":" + (d + (q + (e + y))))))
  }

  lemma MemberRead(b: string, p: string, k: string, c: string, d: string, q: string, v: Json, e: string, y: string)
    requires AllBlank(b) && AllBlank(c) && AllBlank(d) && AllBlank(e) && ReadsLiteral(p, k) && ReadsValue(q, v)
    requires y != "" && (y[0] == ',' || y[0] == '}')
    ensures ParseMembers(MemberText(b, p, c, d, q, e, y)) == AfterMember(k, v, y)
  {
    hide ParseValue, ParseMembers, AfterMember, Skip, Literal;
    var value := q + (e + y);
    var colon := ":" + (d + value);
    var x := p + (c + colon);
    ClearEnd(e, y);
    SkipOver(b, x);
    NoSkip(x);
    SkipOver(c, colon);
    NoSkip(colon);
    assert colon[1..] == d + value;
    SkipOver(d, value);
    NoSkip(value);
    MembersUnfolded(b + x);
    assert Literal(p + (c + colon)) == Done(k, c + colon);
  }

  lemma LastMemberReads(b: string, p: string, k: string, c: string, d: string, q: string, v: Json, e: string)
    requires AllBlank(b) && AllBlank(c) && AllBlank(d) && AllBlank(e) && ReadsLiteral(p, k) && ReadsValue(q, v)
    ensures ReadsMembers(MemberText(b, p, c, d, q, e, "}"), Member(k, v, NoMember))
  {
    hide ParseValue, ParseMembers, AllBlank, ReadsValue, ReadsLiteral, MemberText;
    forall w: string ensures ParseMembers(MemberText(b, p, c, d, q, e, "}") + w) == Done(Member(k, v, NoMember), w) {
      MemberRead(b, p, k, c, d, q, v, e, "}" + w);
      MemberTextThen(b, p, c, d, q, e, "}", w);
      assert ("}" + w)[1..] == w;
    }
  }

  lemma NextMemberReads(b: string, p: string, k: string, c: string, d: string, q: string, v: Json, e: string, r: string, more: Members)
    requires AllBlank(b) && AllBlank(c) && AllBlank(d) && AllBlank(e) && ReadsLiteral(p, k) && ReadsValue(q, v) && ReadsMembers(r, more)
    ensures ReadsMembers(MemberText(b, p, c, d, q, e, "," + r), Member(k, v, more))
  {
    hide ParseValue, ParseMembers, AllBlank, ReadsValue, ReadsLiteral, MemberText;
    forall w: string ensures ParseMembers(MemberText(b, p, c, d, q, e, "," + r) + w) == Done(Member(k, v, more), w) {
      var y := "," + (r + w);
      MemberRead(b, p, k, c, d, q, v, e, y);
      MemberTextThen(b, p, c, d, q, e, "," + r, w);
      assert "," + r + w == y && y[1..] == r + w;
    }
  }

  lemma MemberTextThen(b: string, p: string, c: string, d: string, q: string, e: string, y: string, w: string)
    ensures MemberText(b, p, c, d, q, e, y) + w == MemberText(b, p, c, d, q, e, y + w)
  {
    Assoc(e, y, w);
    Assoc(q, e + y, w);
    Assoc(d, q + (e + y), w);
    Assoc(":", d + (q + (e + y)), w);
    Assoc(c, ":" + (d + (q + (e + y))), w);
    Assoc(p, c + (":" + (d + (q + (e + y)))), w);
    Assoc(b, p + (c + (":" + (d + (q + (e + y))))), w);
  }

  lemma Assoc(a: string, b: string, c: string)
    ensures a + b + c == a + (b + c)
  {}

  lemma MembersKept(t: string) returns (q: string)
    requires Sound(t) && ParseMembers(t).Done?
    ensures Becomes(t, q, ParseMembers(t).rest) && ReadsMembers(q, ParseMembers(t).value)
    ensures t != "" && !Blank(t[0]) ==> q != "" && q[0] == '"'
    decreases |t|, 3
  {
    hide ParseValue, ParseMembers, Sound, Becomes, Skip, ReadsMembers, Literal, MemberText;
    MembersUnfolded(t);
    var end := ParseMembers(t).rest;
    var b := BlankKept(t);
    BecomesSound(t, b, Skip(t));
    LiteralStarts(Skip(t));
    var p := LiteralKept(Skip(t));
    var k, r1 := Literal(Skip(t)).value, Literal(Skip(t)).rest;
    BecomesSound(Skip(t), p, r1);
    var c := BlankKept(r1);
    var u := Skip(r1);
    BecomesSound(r1, c, u);
    BecomesItself(u);
    BecomesSound(u, ":", u[1..]);
    var rest: string, e: string, y: string;
    var d := BlankKept(u[1..]);
    BecomesSound(u[1..], d, Skip(u[1..]));
    var x := ValueKept(Skip(u[1..]));
    var v := ParseValue(Skip(u[1..])).value;
    rest := ParseValue(Skip(u[1..])).rest;
    BecomesSound(Skip(u[1..]), x, rest);
    e := BlankKept(rest);
    y := Skip(rest);
    BecomesSound(rest, e, y);
    var tail := MembersTail(y, k, v, end);
    if y[0] == ',' {
      NextMemberReads(b, p, k, c, d, x, v, e, tail[1..], ParseMembers(y[1..]).value);
    } else {
      LastMemberReads(b, p, k, c, d, x, v, e);
    }
    BecomesThen(rest, e, y, tail, end);
    BecomesThen(Skip(u[1..]), x, rest, e + tail, end);
    BecomesThen(u[1..], d, Skip(u[1..]), x + (e + tail), end);
    BecomesThen(u, ":", u[1..], d + (x + (e + tail)), end);
    BecomesThen(r1, c, u, ":" + (d + (x + (e + tail))), end);
    BecomesThen(Skip(t), p, r1, c + (":" + (d + (x + (e + tail)))), end);
    BecomesThen(t, b, Skip(t), p + (c + (":" + (d + (x + (e + tail))))), end);
    q := MemberText(b, p, c, d, x, e, tail);
    MemberTextIs(b, p, c, d, x, e, tail);
  }

  lemma MemberTextIs(b: string, p: string, c: string, d: string, q: string, e: string, y: string)
    ensures MemberText(b, p, c, d, q, e, y) == b + (p + (c + (":" + (d + (q + (e + y))))))
  {}

  lemma LiteralStarts(t: string)
    requires Literal(t).Done?
    ensures At(t, 0) == '"'
  {}

  /** The comma and the members behind it, or the closing brace. */
  lemma MembersTail(y: string, k: string, v: Json, end: string) returns (tail: string)
    requires Sound(y) && AfterMember(k, v, y).Done? && AfterMember(k, v, y).rest == end
    ensures y != "" && (y[0] == ',' || y[0] == '}') && Becomes(y, tail, end) && tail != ""
    ensures y[0] == ',' ==> ParseMembers(y[1..]).Done? && tail == "," + tail[1..] && ReadsMembers(tail[1..], ParseMembers(y[1..]).value)
    ensures y[0] == '}' ==> tail == "}"
    decreases |y|, 4
  {
    hide ParseMembers, Sound, Becomes, ReadsMembers;
    BecomesItself(y);
    BecomesSound(y, [y[0]], y[1..]);
    tail := [y[0]];
    if y[0] == ',' {
      var more := MembersKept(y[1..]);
      BecomesThen(y, ",", y[1..], more, end);
      tail := "," + more;
      assert tail[1..] == more;
    }
  }

  // ---- brackets ----

  lemma ArrayReads(b: string, q: string, items: Items)
    requires AllBlank(b) && ReadsItems(q, items) && q != "" && !Blank(q[0]) && q[0] != ']'
    ensures ReadsValue("[" + (b + q), Array(items))
  {
    hide ParseValue, ParseItems, Skip;
    var p := "[" + (b + q);
    forall w | Clear(w) ensures ParseValue(p + w) == Done(Array(items), w) {
      var x := q + w;
      assert ParseItems(x) == Done(items, w);
      SkipOver(b, x);
      NoSkip(x);
      BracketOpens(b + x);
      assert p + w == "[" + (b + x);
    }
  }

  /** parse_value on an opening bracket. */
  lemma BracketOpens(x: string)
    ensures var u := Skip(x);
            ParseValue("[" + x) ==
              if At(u, 0) == ']' then Done(Array(NoItem), u[1..])
              else match ParseItems(u) case Done(items, rest) => Done(Array(items), rest) case Stop(y) => Stop(y)
  {
    hide Skip, ParseItems, ParseMembers, ParseNumber, Literal;
    var t := "[" + x;
    assert t[1..] == x && t[0] == '[' && "null"[0] == 'n' && "false"[0] == 'f' && "true"[0] == 't';
  }

  lemma BraceOpens(x: string)
    ensures var u := Skip(x);
            ParseValue("{" + x) ==
              if At(u, 0) == '}' then Done(Object(NoMember), u[1..])
              else match ParseMembers(u) case Done(members, rest) => Done(Object(members), rest) case Stop(y) => Stop(y)
  {
    hide Skip, ParseItems, ParseMembers, ParseNumber, Literal;
    var t := "{" + x;
    assert t[1..] == x && t[0] == '{' && "null"[0] == 'n' && "false"[0] == 'f' && "true"[0] == 't';
  }

  lemma EmptyArrayReads(b: string)
    requires AllBlank(b)
    ensures ReadsValue("[" + (b + "]"), Array(NoItem))
  {
    hide ParseValue, Skip;
    var p := "[" + (b + "]");
    forall w | Clear(w) ensures ParseValue(p + w) == Done(Array(NoItem), w) {
      SkipOver(b, "]" + w);
      NoSkip("]" + w);
      BracketOpens(b + ("]" + w));
      assert p + w == "[" + (b + ("]" + w)) && ("]" + w)[1..] == w;
    }
  }

  lemma ObjectReads(b: string, q: string, members: Members)
    requires AllBlank(b) && ReadsMembers(q, members) && q != "" && q[0] == '"'
    ensures ReadsValue("{" + (b + q), Object(members))
  {
    hide ParseValue, ParseMembers, Skip;
    var p := "{" + (b + q);
    forall w | Clear(w) ensures ParseValue(p + w) == Done(Object(members), w) {
      var x := q + w;
      assert ParseMembers(x) == Done(members, w);
      SkipOver(b, x);
      NoSkip(x);
      BraceOpens(b + x);
      assert p + w == "{" + (b + x);
    }
  }

  lemma EmptyObjectReads(b: string)
    requires AllBlank(b)
    ensures ReadsValue("{" + (b + "}"), Object(NoMember))
  {
    hide ParseValue, Skip;
    var p := "{" + (b + "}");
    forall w | Clear(w) ensures ParseValue(p + w) == Done(Object(NoMember), w) {
      SkipOver(b, "}" + w);
      NoSkip("}" + w);
      BraceOpens(b + ("}" + w));
      assert p + w == "{" + (b + ("}" + w)) && ("}" + w)[1..] == w;
    }
  }

  lemma ArrayKept(t: string) returns (p: string)
    requires Sound(t) && At(t, 0) == '[' && ParseValue(t).Done?
    ensures Becomes(t, p, ParseValue(t).rest) && ReadsValue(p, ParseValue(t).value)
    decreases |t|, 1
  {
    hide ParseValue, ParseItems, Sound, Becomes, Skip, ReadsItems, ReadsValue;
    assert t == "[" + t[1..];
    BracketOpens(t[1..]);
    var end := ParseValue(t).rest;
    BecomesItself(t);
    BecomesSound(t, "[", t[1..]);
    var b := BlankKept(t[1..]);
    var u := Skip(t[1..]);
    BecomesSound(t[1..], b, u);
    SkipStops(t[1..]);
    var q: string;
    if At(u, 0) == ']' {
      BecomesItself(u);
      q := "]";
      EmptyArrayReads(b);
    } else {
      q := ItemsKept(u);
      ItemsNeedText(u);
      ArrayReads(b, q, ParseItems(u).value);
    }
    BecomesThen(t[1..], b, u, q, end);
    BecomesThen(t, "[", t[1..], b + q, end);
    p := "[" + (b + q);
  }

  lemma ItemsNeedText(t: string)
    requires ParseItems(t).Done?
    ensures t != ""
  {}

  lemma MembersNeedText(t: string)
    requires ParseMembers(t).Done?
    ensures t != ""
  {}

  lemma ObjectKept(t: string) returns (p: string)
    requires Sound(t) && At(t, 0) == '{' && ParseValue(t).Done?
    ensures Becomes(t, p, ParseValue(t).rest) && ReadsValue(p, ParseValue(t).value)
    decreases |t|, 1
  {
    hide ParseValue, ParseMembers, Sound, Becomes, Skip, ReadsMembers, ReadsValue;
    assert t == "{" + t[1..];
    BraceOpens(t[1..]);
    var end := ParseValue(t).rest;
    BecomesItself(t);
    BecomesSound(t, "{", t[1..]);
    var b := BlankKept(t[1..]);
    var u := Skip(t[1..]);
    BecomesSound(t[1..], b, u);
    SkipStops(t[1..]);
    var q: string;
    if At(u, 0) == '}' {
      BecomesItself(u);
      q := "}";
      EmptyObjectReads(b);
    } else {
      q := MembersKept(u);
      MembersNeedText(u);
      ObjectReads(b, q, ParseMembers(u).value);
    }
    BecomesThen(t[1..], b, u, q, end);
    BecomesThen(t, "{", t[1..], b + q, end);
    p := "{" + (b + q);
  }

  /** A value becomes a text that is read as the same value. */
  lemma ValueKept(t: string) returns (p: string)
    requires Sound(t) && ParseValue(t).Done?
    ensures Becomes(t, p, ParseValue(t).rest) && ReadsValue(p, ParseValue(t).value)
    decreases |t|, 2
  {
    hide Sound, Becomes, ReadsValue, ParseItems, ParseMembers, Literal, ParseNumber, Skip;
    if "null" <= t {
      WordKept(t, Null);
      p := "null";
    } else if "false" <= t {
      WordKept(t, False);
      p := "false";
    } else if "true" <= t {
      WordKept(t, True);
      p := "true";
    } else if At(t, 0) == '"' {
      p := LiteralValueKept(t);
    } else if At(t, 0) == '[' {
      p := ArrayKept(t);
    } else if At(t, 0) == '{' {
      p := ObjectKept(t);
    } else {
      p := NumberKept(t);
    }
  }

  /** The law: a text that is accepted as a whole means the same after minifying. */
  lemma MinifyKeepsMeaning(t: string)
    requires Sound(t) && ParseText(t, true).Done?
    ensures Mini(t).Some? && ParseText(Mini(t).value, true) == ParseText(t, true)
  {
    hide Sound, ParseValue, Skip, Mini, Before;
    var b := BlankKept(t);
    BecomesSound(t, b, Skip(t));
    var p := ValueKept(Skip(t));
    var j, rest := ParseValue(Skip(t)).value, ParseValue(Skip(t)).rest;
    BecomesSound(Skip(t), p, rest);
    var c := BlankKept(rest);
    BecomesThen(Skip(t), p, rest, c, "");
    BecomesThen(t, b, Skip(t), p + c, "");
    MiniEmpty();
    var m := b + (p + c);
    WholeText(t, m);
    ClearBlank(c);
    SkipOver(b, p + c);
    NoSkip(p + c);
    assert c + "" == c;
    SkipOver(c, "");
    SkipNothing();
  }

  lemma WholeText(t: string, m: string)
    requires Becomes(t, m, "")
    ensures Mini(t) == Some(m)
  {
    assert m + "" == m;
  }

  lemma ClearBlank(c: string)
    requires AllBlank(c)
    ensures Clear(c)
  {}

  lemma SkipNothing()
    ensures Skip("") == ""
  {}

  /** Where a quote hides behind a short \u, parser and minifier see different literals. */
  lemma HiddenQuote()
    ensures exists t :: NoNul(t) && ParseText(t, true) == Done(String(""), "") && !Sound(t) && Mini(t) == None
  {
    hide Body, Copied, Mini, Skip;
    var u := ['\\', 'u', '1', '2', '"', '3', '"'];
    var t := ['"'] + u;
    assert t[1..] == u && u[2..][2] == '"';
    ShortUnicode(u);
    CopiedShort(u);
    LiteralStep(t, 0);
    assert t[0..] == t && t[0 + 1..] == u && t[0 + 1 + 5..] == ['3', '"'];
    OpenQuote();
    assert Mini(t) == None;
    NoSkip(t);
    SkipNothing();
    assert ParseValue(t) == Done(String(""), "") by { assert "null"[0] == 'n' && "false"[0] == 'f' && "true"[0] == 't'; }
    assert NoNul(t) && ParseText(t, true) == Done(String(""), "") && !Sound(t) && Mini(t) == None;
  }

  lemma ShortUnicode(u: string)
    requires u == ['\\', 'u', '1', '2', '"', '3', '"']
    ensures Body(u) == Done("", "")
  {
    hide Body;
    UnicodeEscape(u);
    var y := u[2..];
    assert y == ['1', '2', '"', '3', '"'] && y[2] == '"';
    assert ParseHex4(y) == 0;
    BiteStep(u);
    assert u[6..] == ['"'];
    QuoteCloses(u[6..], "");
    assert "" + "" == "";
  }

  lemma CopiedShort(u: string)
    requires u == ['\\', 'u', '1', '2', '"', '3', '"']
    ensures Copied(u) == Some(5)
  {
    hide Copied;
    CopiedPair(u);
    var a, b := ['1', '2'], ['"', '3', '"'];
    assert u[2..] == a + b;
    CopiedOver(a, b);
    QuoteCloses(b, "");
  }

  lemma OpenQuote()
    ensures Mini(['3', '"']) == None
  {
    var a, b := ['3'], ['"'];
    assert ['3', '"'] == a + b && b[1..] == "";
    assert Mini(b) == None;
    MiniPlain(a, b);
  }

  /** The condition is not necessary: an escape behind a short \u leaves both with the same literal. */
  lemma UnsoundKept()
    ensures exists t :: NoNul(t) && !Sound(t) && ParseText(t, true) == Done(String("4"), "") && Mini(t) == Some(t)
  {
    hide Body, Copied, Mini, Skip;
    var u := ['\\', 'u', '1', '\\', 'n', '3', '4', '"'];
    var t := ['"'] + u;
    assert t[1..] == u && u[2..][1] == '\\';
    HiddenEscape(u);
    CopiedHidden(u);
    LiteralStep(t, 0);
    assert t[0..] == t && t[0 + 1..] == u && t[0 + 1 + 8..] == "" && t[0..0 + 1 + 8] == t && t + "" == t;
    MiniEmpty();
    NoSkip(t);
    SkipNothing();
    assert ParseValue(t) == Done(String("4"), "") by { assert "null"[0] == 'n' && "false"[0] == 'f' && "true"[0] == 't'; }
    assert NoNul(t) && ParseText(t, true) == Done(String("4"), "") && !Sound(t) && Mini(t) == Some(t);
  }

  lemma HiddenEscape(u: string)
    requires u == ['\\', 'u', '1', '\\', 'n', '3', '4', '"']
    ensures Body(u) == Done("4", "")
  {
    hide Body;
    UnicodeEscape(u);
    var y := u[2..];
    assert At(y, 1) == '\\';
    assert ParseHex4(y) == 0;
    BiteStep(u);
    assert u[6..] == ['4', '"'] && u[6..][1..] == ['"'];
    BiteStep(u[6..]);
    QuoteCloses(['"'], "");
    assert "4" + "" == "4" && "" + "4" == "4";
  }

  lemma CopiedHidden(u: string)
    requires u == ['\\', 'u', '1', '\\', 'n', '3', '4', '"']
    ensures Copied(u) == Some(8)
  {
    hide Copied;
    CopiedPair(u);
    var a, b := ['1'], u[3..];
    assert u[2..] == a + b;
    CopiedOver(a, b);
    CopiedPair(b);
    var c, d := ['3', '4'], ['"'];
    assert b[2..] == c + d;
    CopiedOver(c, d);
    QuoteCloses(d, "");
  }
}
