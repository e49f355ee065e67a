/** Parsing what was printed gives the tree back, in both print modes. */
module JsonLaws {
  import opened Text
  import opened JsonString
  import opened Json

  // ---- blanks ----

  predicate AllBlank(b: string) {
    forall i | 0 <= i < |b| :: Blank(b[i])
  }

  lemma {:induction false} SkipOver(b: string, t: string)
    requires AllBlank(b)
    ensures Skip(b + t) == Skip(t)
  {
    if b == "" {
      assert b + t == t;
    } else {
      assert (b + t)[1..] == b[1..] + t;
      SkipOver(b[1..], t);
    }
  }

  lemma {:induction false} SkipStops(t: string)
    ensures Skip(t) == "" || !Blank(Skip(t)[0])
    ensures Skip(Skip(t)) == Skip(t)
  {
    if t != "" && Blank(t[0]) { SkipStops(t[1..]); }
  }

  // ---- numbers ----

  /** A text that does not continue a number. */
  predicate Clear(t: string) {
    t == "" || (!IsDigit(t[0]) && t[0] != '.' && t[0] != 'e' && t[0] != 'E')
  }

  lemma {:induction false} RunOfDigits(d: string, t: string)
    requires AllDigits(d) && (t == "" || !IsDigit(t[0]))
    ensures DigitRun(d + t) == |d|
  {
    if d == "" {
      assert d + t == t;
    } else {
      assert (d + t)[1..] == d[1..] + t;
      RunOfDigits(d[1..], t);
    }
  }

  lemma {:induction false} FirstDigit(n: nat)
    ensures n > 0 ==> '1' <= Digits(n)[0]
    ensures n == 0 ==> Digits(n) == "0"
  {
    if n >= 10 { FirstDigit(n / 10); }
  }

  lemma NumberReadsBack(n: int, rest: string)
    requires INT_MIN <= n <= INT_MAX && Clear(rest)
    ensures ParseNumber(Decimal(n) + rest) == Done(Number(n), rest)
  {
    hide Value, DigitRun, Digits;
    var m: nat := if n < 0 then -n else n;
    var d := Digits(m);
    var t := Decimal(n) + rest;
    var u := if n < 0 then t[1..] else t;
    assert u == d + rest;
    ValueOfDigits(m);
    FirstDigit(m);
    RunOfDigits(d, rest);
    if m > 0 {
      assert u[..|d|] == d && u[|d|..] == rest;
    } else {
      assert u[1..] == rest && rest[..0] == "" && rest[0..] == rest;
      NoDigits(rest);
    }
  }

  lemma NoDigits(t: string)
    ensures Value(t[..0]) == 0
  {}

  // ---- values ----

  /** No print is empty, starts with a blank, or looks like the end of a list. */
  lemma PrintStarts(j: Json, depth: nat, fmt: bool)
    ensures var p := Print(j, depth, fmt); p != "" && !Blank(p[0]) && p[0] != ']'
  {
    if j.Number? { FirstDigit(if j.n < 0 then -j.n else j.n); }
  }

  lemma NumberValue(n: int, rest: string)
    requires INT_MIN <= n <= INT_MAX && Clear(rest)
    ensures ParseValue(Decimal(n) + rest) == Done(Number(n), rest)
  {
    hide ParseNumber, ParseItems, ParseMembers, Digits;
    NumberReadsBack(n, rest);
    var t := Decimal(n) + rest;
    assert StartsNumber(t[0]);
    assert "null"[0] == 'n' && "false"[0] == 'f' && "true"[0] == 't';
    assert !("null" <= t) && !("false" <= t) && !("true" <= t);
  }

  lemma StringValue(s: string, rest: string)
    requires NoNul(s)
    ensures ParseValue(Quote(s) + rest) == Done(String(s), rest)
  {
    hide ParseNumber, ParseItems, ParseMembers, Literal, Escaped;
    QuoteReadsBack(s, rest);
    var t := Quote(s) + rest;
    assert t[0] == '"' && "null"[0] == 'n' && "false"[0] == 'f' && "true"[0] == 't';
  }

  lemma WordValue(j: Json, rest: string, depth: nat, fmt: bool)
    requires j.Null? || j.False? || j.True?
    ensures ParseValue(Print(j, depth, fmt) + rest) == Done(j, rest)
  {
    hide ParseNumber, ParseItems, ParseMembers, Literal;
    var p := Print(j, depth, fmt);
    var t := p + rest;
    assert t[..|p|] == p && t[|p|..] == rest;
    assert t[0] == p[0] && "null"[0] == 'n' && "false"[0] == 'f' && "true"[0] == 't';
  }

  /** An array with items, once its items are known to read back. */
  lemma ArrayValue(t: string, items: Items, rest: string)
    requires t != "" && !Blank(t[0]) && t[0] != ']' && ParseItems(t) == Done(items, rest)
    ensures ParseValue("[" + t) == Done(Array(items), rest)
  {
    hide ParseNumber, ParseItems, ParseMembers, Literal;
    var u := "[" + t;
    assert u[1..] == t && u[0] == '[' && "null"[0] == 'n' && "false"[0] == 'f' && "true"[0] == 't';
  }

  lemma EmptyArrayValue(rest: string)
    ensures ParseValue("[]" + rest) == Done(Array(NoItem), rest)
  {
    hide ParseNumber, ParseItems, ParseMembers, Literal;
    var u := "[]" + rest;
    assert u[1..] == "]" + rest && u[1..][1..] == rest && u[0] == '[' && "null"[0] == 'n' && "false"[0] == 'f' && "true"[0] == 't';
  }

  lemma ObjectValue(b: string, t: string, members: Members, rest: string)
    requires AllBlank(b) && t != "" && !Blank(t[0]) && t[0] != '}' && ParseMembers(t) == Done(members, rest)
    ensures ParseValue("{" + b + t) == Done(Object(members), rest)
  {
    hide ParseNumber, ParseItems, ParseMembers, Literal;
    SkipOver(b, t);
    var u := "{" + b + t;
    assert u[1..] == b + t && u[0] == '{' && "null"[0] == 'n' && "false"[0] == 'f' && "true"[0] == 't';
  }

  lemma EmptyObjectValue(b: string, rest: string)
    requires AllBlank(b)
    ensures ParseValue("{" + b + "}" + rest) == Done(Object(NoMember), rest)
  {
    hide ParseNumber, ParseItems, ParseMembers, Literal;
    SkipOver(b, "}" + rest);
    var u := "{" + b + "}" + rest;
    assert u[1..] == b + ("}" + rest) && ("}" + rest)[1..] == rest && u[0] == '{' && "null"[0] == 'n' && "false"[0] == 'f' && "true"[0] == 't';
  }

  /** The loop of parse_array, one turn. */
  lemma ItemsTurn(p: string, v: Json, w: string)
    requires p != "" && !Blank(p[0]) && w != "" && !Blank(w[0]) && ParseValue(p + w) == Done(v, w)
    ensures ParseItems(p + w) ==
              if w[0] == ',' then (match ParseItems(w[1..]) case Done(more, end) => Done(Item(v, more), end) case Stop(y) => Stop(y))
              else if w[0] == ']' then Done(Item(v, NoItem), w[1..])
              else Stop(Malformed)
  {
    hide ParseValue;
  }

  lemma ItemsSkip(b: string, t: string)
    requires AllBlank(b)
    ensures ParseItems(b + t) == ParseItems(t)
  {
    hide ParseValue;
    SkipOver(b, t);
  }

  /** How the loop of parse_object goes on after a member. */
  function AfterMember(k: string, v: Json, w: string): Parse<Members> {
    if At(w, 0) == ',' then (match ParseMembers(w[1..]) case Done(more, end) => Done(Member(k, v, more), end) case Stop(y) => Stop(y))
    else if At(w, 0) == '}' then Done(Member(k, v, NoMember), w[1..])
    else Stop(Malformed)
  }

  lemma MembersUnfold(t: string, k: string, u: string, v: Json, after: string)
    requires Literal(Skip(t)) == Done(k, u) && At(Skip(u), 0) == ':' && ParseValue(Skip(Skip(u)[1..])) == Done(v, after)
    ensures ParseMembers(t) == AfterMember(k, v, Skip(after))
  {
    hide Skip, ParseValue, Literal;
  }

  lemma NoSkip(t: string)
    requires t != "" && !Blank(t[0])
    ensures Skip(t) == t
  {}

  /** The loop of parse_object, one turn. */
  lemma MembersTurn(k: string, b: string, p: string, v: Json, c: string, w: string)
    requires NoNul(k) && AllBlank(b) && p != "" && !Blank(p[0]) && AllBlank(c) && w != "" && !Blank(w[0])
    requires ParseValue(p + (c + w)) == Done(v, c + w)
    ensures ParseMembers(Quote(k) + (":" + (b + (p + (c + w))))) == AfterMember(k, v, w)
  {
    hide ParseValue, ParseMembers, Literal, Escaped, Skip, AfterMember;
    var value := p + (c + w);
    var u := ":" + (b + value);
    var t := Quote(k) + u;
    QuoteReadsBack(k, u);
    NoSkip(t);
    NoSkip(u);
    assert u[1..] == b + value;
    SkipOver(b, value);
    NoSkip(value);
    SkipOver(c, w);
    NoSkip(w);
    MembersUnfold(t, k, u, v, c + w);
  }

  lemma MembersSkip(b: string, t: string)
    requires AllBlank(b)
    ensures ParseMembers(b + t) == ParseMembers(t)
  {
    hide ParseValue, Literal;
    SkipOver(b, t);
  }

  // ---- the round trip ----

  lemma ReadsBack(j: Json, depth: nat, fmt: bool, rest: string)
    requires Printable(j) && Clear(rest)
    ensures ParseValue(Print(j, depth, fmt) + rest) == Done(j, rest)
    decreases j
  {
    hide ParseValue, ParseItems, ParseMembers, PrintItems, PrintMembers, Quote, Decimal;
    match j {
      case Number(n) => NumberValue(n, rest);
      case String(s) => StringValue(s, rest);
      case Array(items) => ArrayReadsBack(items, depth, fmt, rest);
      case Object(members) => ObjectReadsBack(members, depth, fmt, rest);
      case _ => WordValue(j, rest, depth, fmt);
    }
  }

  lemma ArrayReadsBack(items: Items, depth: nat, fmt: bool, rest: string)
    requires PrintableItems(items)
    ensures ParseValue(Print(Array(items), depth, fmt) + rest) == Done(Array(items), rest)
    decreases items, 1
  {
    hide ParseValue, ParseItems, ParseMembers, PrintMembers, Quote, Decimal;
    if items.NoItem? {
      assert Print(Array(items), depth, fmt) + rest == "[]" + rest;
      EmptyArrayValue(rest);
    } else {
      var t := PrintItems(items, depth + 1, fmt) + ("]" + rest);
      ItemsReadBack(items, depth + 1, fmt, rest);
      ItemsStart(items, depth + 1, fmt);
      ArrayValue(t, items, rest);
      assert Print(Array(items), depth, fmt) + rest == "[" + t;
    }
  }

  lemma ItemsStart(items: Items, depth: nat, fmt: bool)
    requires items.Item?
    ensures var p := PrintItems(items, depth, fmt); p != "" && !Blank(p[0]) && p[0] != ']'
  {
    hide Print;
    PrintStarts(items.value, depth, fmt);
  }

  lemma ItemsReadBack(items: Items, depth: nat, fmt: bool, rest: string)
    requires PrintableItems(items) && items.Item?
    ensures ParseItems(PrintItems(items, depth, fmt) + ("]" + rest)) == Done(items, rest)
    decreases items, 0
  {
    hide Print, PrintItems, ParseValue, ParseItems;
    var p := Print(items.value, depth, fmt);
    PrintStarts(items.value, depth, fmt);
    NextItemText(items, depth, fmt, "]" + rest);
    if items.next.NoItem? {
      var w := "]" + rest;
      ReadsBack(items.value, depth, fmt, w);
      ItemsTurn(p, items.value, w);
      assert w[1..] == rest;
    } else {
      var more := PrintItems(items.next, depth, fmt) + ("]" + rest);
      var w := "," + (If(fmt, " ") + more);
      ReadsBack(items.value, depth, fmt, w);
      ItemsTurn(p, items.value, w);
      assert w[1..] == If(fmt, " ") + more;
      ItemsSkip(If(fmt, " "), more);
      ItemsReadBack(items.next, depth, fmt, rest);
    }
  }

  lemma NextItemText(items: Items, depth: nat, fmt: bool, tail: string)
    requires items.Item?
    ensures PrintItems(items, depth, fmt) + tail
            == Print(items.value, depth, fmt)
               + if items.next.NoItem? then tail else "," + (If(fmt, " ") + (PrintItems(items.next, depth, fmt) + tail))
  {
    hide Print;
  }

  lemma ObjectReadsBack(members: Members, depth: nat, fmt: bool, rest: string)
    requires PrintableMembers(members)
    ensures ParseValue(Print(Object(members), depth, fmt) + rest) == Done(Object(members), rest)
    decreases members, 1
  {
    hide ParseValue, ParseItems, ParseMembers, PrintItems, PrintMembers, Quote, Decimal, Tabs;
    if members.NoMember? {
      var b := If(fmt, "\n" + Tabs(depth - 1));
      assert Print(Object(members), depth, fmt) + rest == "{" + b + "}" + rest;
      EmptyObjectValue(b, rest);
    } else {
      var c := If(fmt, Tabs(depth));
      MembersReadBack(members, depth + 1, fmt, c, rest);
      ObjectOfMembers(members, depth, fmt, c + ("}" + rest), rest);
      assert Print(Object(members), depth, fmt) + rest == "{" + If(fmt, "\n") + (PrintMembers(members, depth + 1, fmt) + (c + ("}" + rest)));
    }
  }

  lemma ObjectOfMembers(members: Members, depth: nat, fmt: bool, w: string, rest: string)
    requires members.Member? && ParseMembers(PrintMembers(members, depth + 1, fmt) + w) == Done(members, rest)
    ensures ParseValue("{" + If(fmt, "\n") + (PrintMembers(members, depth + 1, fmt) + w)) == Done(Object(members), rest)
  {
    hide ParseValue, ParseItems, ParseMembers, PrintMembers;
    var t := PrintMembers(members, depth + 1, fmt) + w;
    var b := MembersStart(members, depth + 1, fmt, w);
    var u := t[|b|..];
    assert t == b + u;
    MembersSkip(b, u);
    ObjectValue(If(fmt, "\n") + b, u, members, rest);
    assert "{" + If(fmt, "\n") + t == "{" + (If(fmt, "\n") + b) + u;
  }

  /** The members start with their indentation and a quote. */
  lemma MembersStart(members: Members, depth: nat, fmt: bool, rest: string) returns (b: string)
    requires members.Member?
    ensures var t := PrintMembers(members, depth, fmt) + rest;
            AllBlank(b) && |b| < |t| && t[..|b|] == b && t[|b|] == '"'
  {
    hide Print;
    b := If(fmt, Tabs(depth));
  }

  lemma MembersReadBack(members: Members, depth: nat, fmt: bool, c: string, rest: string)
    requires PrintableMembers(members) && members.Member? && AllBlank(c)
    ensures ParseMembers(PrintMembers(members, depth, fmt) + (c + ("}" + rest))) == Done(members, rest)
    decreases members, 0
  {
    hide Print, PrintMembers, ParseValue, ParseMembers, Line;
    var nl := If(fmt, "\n");
    if members.next.NoMember? {
      var w := "}" + rest;
      ReadsBack(members.member, depth, fmt, (nl + c) + w);
      LineTurn(members.key, members.member, depth, fmt, nl + c, w);
      LastMemberText(members, depth, fmt, c, w);
      assert w[1..] == rest;
    } else {
      var more := PrintMembers(members.next, depth, fmt) + (c + ("}" + rest));
      var w := "," + (nl + more);
      ReadsBack(members.member, depth, fmt, "" + w);
      LineTurn(members.key, members.member, depth, fmt, "", w);
      MembersSkip(nl, more);
      MembersReadBack(members.next, depth, fmt, c, rest);
      NextMemberText(members, depth, fmt, c + ("}" + rest));
      assert w[1..] == nl + more;
    }
  }

  lemma LastMemberText(members: Members, depth: nat, fmt: bool, c: string, w: string)
    requires members.Member? && members.next.NoMember?
    ensures PrintMembers(members, depth, fmt) + (c + w)
            == Line(members.key, Print(members.member, depth, fmt), depth, fmt) + ((If(fmt, "\n") + c) + w)
  {
    hide Line, Print;
  }

  lemma NextMemberText(members: Members, depth: nat, fmt: bool, tail: string)
    requires members.Member? && members.next.Member?
    ensures PrintMembers(members, depth, fmt) + tail
            == Line(members.key, Print(members.member, depth, fmt), depth, fmt)
               + ("" + ("," + (If(fmt, "\n") + (PrintMembers(members.next, depth, fmt) + tail))))
  {
    hide Line, Print;
  }

  /** The loop of parse_object on a printed line. */
  lemma LineTurn(k: string, v: Json, depth: nat, fmt: bool, c: string, w: string)
    requires NoNul(k) && AllBlank(c) && w != "" && !Blank(w[0])
    requires ParseValue(Print(v, depth, fmt) + (c + w)) == Done(v, c + w)
    ensures ParseMembers(Line(k, Print(v, depth, fmt), depth, fmt) + (c + w)) == AfterMember(k, v, w)
  {
    hide ParseMembers, ParseValue, Quote, Print, AfterMember;
    var p := Print(v, depth, fmt);
    PrintStarts(v, depth, fmt);
    MembersTurn(k, If(fmt, "\t"), p, v, c, w);
    var t := Quote(k) + (":" + (If(fmt, "\t") + (p + (c + w))));
    assert Line(k, p, depth, fmt) + (c + w) == If(fmt, Tabs(depth)) + t;
    MembersSkip(If(fmt, Tabs(depth)), t);
  }

  /** Both print modes are read back as the very tree that was printed, also when nothing may follow. */
  lemma RoundTrip(j: Json, fmt: bool, whole: bool)
    requires Printable(j)
    ensures ParseText(Print(j, 0, fmt), whole) == Done(j, "")
  {
    hide ParseValue, Print;
    ReadsBack(j, 0, fmt, "");
    PrintStarts(j, 0, fmt);
    NoSkip(Print(j, 0, fmt));
    assert Print(j, 0, fmt) + "" == Print(j, 0, fmt);
  }

  // ---- every parsed tree can be printed ----

  lemma EscapeNoNul(t: string)
    requires NoNul(t) && t != ""
    ensures NoNul(ReadEscape(t).text)
  {
    hide ParseHex4;
    assert t[0] in t;
  }

  lemma {:induction false} BodyNoNul(t: string)
    requires NoNul(t) && Body(t).Done?
    ensures NoNul(Body(t).value) && NoNul(Body(t).rest)
    decreases |t|
  {
    hide ReadEscape;
    if t != "" && t[0] != '"' {
      if t[0] != '\\' {
        BodyNoNul(t[1..]);
      } else {
        var e := ReadEscape(t[1..]);
        if t[1..] != "" { EscapeNoNul(t[1..]); }
        BodyNoNul(t[1 + e.used..]);
      }
    }
  }

  lemma {:induction false} SkipNoNul(t: string)
    requires NoNul(t)
    ensures NoNul(Skip(t))
  {
    if t != "" && Blank(t[0]) { SkipNoNul(t[1..]); }
  }

  lemma ValuePrintable(t: string)
    requires NoNul(t) && ParseValue(t).Done?
    ensures Printable(ParseValue(t).value) && NoNul(ParseValue(t).rest)
    decreases |t|, 2
  {
    hide Body, ParseItems, ParseMembers, Skip;
    if "null" <= t || "false" <= t || "true" <= t {
    } else {
      if t[0] == '"' {
        BodyNoNul(t[1..]);
      } else if t[0] == '[' {
        var u := Skip(t[1..]);
        SkipNoNul(t[1..]);
        if At(u, 0) != ']' { ItemsPrintable(u); }
      } else if t[0] == '{' {
        var u := Skip(t[1..]);
        SkipNoNul(t[1..]);
        if At(u, 0) != '}' { MembersPrintable(u); }
      }
    }
  }

  lemma ItemsPrintable(t: string)
    requires NoNul(t) && ParseItems(t).Done?
    ensures PrintableItems(ParseItems(t).value) && NoNul(ParseItems(t).rest)
    decreases |t|, 3
  {
    hide ParseValue, Skip;
    SkipNoNul(t);
    ValuePrintable(Skip(t));
    var rest := ParseValue(Skip(t)).rest;
    SkipNoNul(rest);
    if At(Skip(rest), 0) == ',' { ItemsPrintable(Skip(rest)[1..]); }
  }

  lemma MembersPrintable(t: string)
    requires NoNul(t) && ParseMembers(t).Done?
    ensures PrintableMembers(ParseMembers(t).value) && NoNul(ParseMembers(t).rest)
    decreases |t|, 3
  {
    hide ParseValue, Skip, Body;
    SkipNoNul(t);
    BodyNoNul(Skip(t)[1..]);
    var u := Literal(Skip(t)).rest;
    SkipNoNul(u);
    SkipNoNul(Skip(u)[1..]);
    ValuePrintable(Skip(Skip(u)[1..]));
    var after := ParseValue(Skip(Skip(u)[1..])).rest;
    SkipNoNul(after);
    if At(Skip(after), 0) == ',' { MembersPrintable(Skip(after)[1..]); }
  }

  /** Whatever text is parsed, printing the tree and parsing again gives the same tree. */
  lemma Normalises(t: string, fmt: bool, whole: bool)
    requires NoNul(t) && ParseText(t, whole).Done?
    ensures ParseText(Print(ParseText(t, whole).value, 0, fmt), true) == Done(ParseText(t, whole).value, "")
  {
    hide ParseValue, Print;
    SkipNoNul(t);
    ValuePrintable(Skip(t));
    RoundTrip(ParseText(t, whole).value, fmt, true);
  }
}
