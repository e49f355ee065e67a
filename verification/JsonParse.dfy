/** The parser's loops; a cursor into the text is the text that it points to. */
module JsonParse {
  import opened Text
  import opened JsonString
  import opened Json

  method SkipBlanks(t: string) returns (cur: string)
    ensures cur == Skip(t)
  {
    cur := t;
    while cur != "" && cur[0] <= ' '
      invariant Skip(cur) == Skip(t)
      decreases |cur|
    {
      cur := cur[1..];
    }
  }

  lemma PrependTwice(a: string, b: string, p: Parse<string>)
    ensures Prepend(a + b, p) == Prepend(a, Prepend(b, p))
  {
    if p.Done? { assert a + b + p.value == a + (b + p.value); }
  }

  lemma PrependNothing(p: Parse<string>)
    ensures Prepend("", p) == p
  {
    if p.Done? { assert "" + p.value == p.value; }
  }

  lemma PrependToNothing(s: string, rest: string)
    ensures Prepend(s, Done("", rest)) == Done(s, rest)
  {
    assert s + "" == s;
  }

  /** parse_string: copies to `out` until the closing quote or the end of the text. */
  method ParseString(t: string) returns (p: Parse<string>)
    ensures p == Literal(t)
  {
    hide Body, ReadEscape, Prepend;
    if At(t, 0) != '"' { return Stop(Malformed); }
    var out, cur := "", t[1..];
    PrependNothing(Body(cur));
    while cur != "" && cur[0] != '"'
      invariant Prepend(out, Body(cur)) == Body(t[1..])
      decreases |cur|
    {
      BodyStep(cur);
      if cur[0] != '\\' {
        PrependTwice(out, [cur[0]], Body(cur[1..]));
        out, cur := out + [cur[0]], cur[1..];
      } else {
        var e := ReadEscape(cur[1..]);
        if 1 + e.used > |cur| {
          StopStays(out, Overrun);
          return Stop(Overrun);
        }
        PrependTwice(out, e.text, Body(cur[1 + e.used..]));
        out, cur := out + e.text, cur[1 + e.used..];
      }
    }
    BodyStep(cur);
    if cur != "" { cur := cur[1..]; }
    PrependToNothing(out, cur);
    p := Done(out, cur);
  }

  lemma StopStays(s: string, w: Why)
    ensures Prepend(s, Stop(w)) == Stop(w)
  {}

  lemma BodyStep(t: string)
    ensures Body(t) ==
              if t == "" then Done("", "")
              else if t[0] == '"' then Done("", t[1..])
              else if t[0] != '\\' then Prepend([t[0]], Body(t[1..]))
              else
                var e := ReadEscape(t[1..]);
                if 1 + e.used > |t| then Stop(Overrun) else Prepend(e.text, Body(t[1 + e.used..]))
  {}

  /** The digit loop of parse_number: n = n * 10 + digit. */
  method ReadDigits(t: string) returns (n: nat, cur: string)
    ensures var d := DigitRun(t); n == Value(t[..d]) && cur == t[d..]
  {
    hide Value, DigitRun;
    var i := 0;
    n := 0;
    ValueStart(t);
    while i < |t| && '0' <= t[i] <= '9'
      invariant i <= |t| && AllDigits(t[..i]) && n == Value(t[..i])
      decreases |t| - i
    {
      ValueStep(t, i);
      n := 10 * n + (t[i] as int - '0' as int);
      i := i + 1;
    }
    RunEnds(t, i);
    cur := t[i..];
  }

  lemma ValueStart(t: string)
    ensures Value(t[..0]) == 0
  {}

  lemma ValueStep(t: string, i: nat)
    requires i < |t| && AllDigits(t[..i]) && IsDigit(t[i])
    ensures AllDigits(t[..i + 1]) && Value(t[..i + 1]) == 10 * Value(t[..i]) + (t[i] as int - '0' as int)
  {
    var s := t[..i + 1];
    forall j | 0 <= j < |s| ensures IsDigit(s[j]) { if j < i { assert s[j] == t[..i][j]; } }
    assert s[..i] == t[..i];
  }

  lemma {:induction false} RunEnds(t: string, i: nat)
    requires i <= |t| && AllDigits(t[..i]) && (i < |t| ==> !IsDigit(t[i]))
    ensures DigitRun(t) == i
  {
    if i > 0 {
      assert IsDigit(t[..i][0]);
      assert t[1..][..i - 1] == t[..i][1..];
      RunEnds(t[1..], i - 1);
    }
  }

  method ReadNumber(t: string) returns (p: Parse<Json>)
    ensures p == ParseNumber(t)
  {
    hide Value, DigitRun;
    var sign, cur := 1, t;
    if At(cur, 0) == '-' { sign, cur := -1, cur[1..]; }
    if At(cur, 0) == '0' { cur := cur[1..]; }
    var n: nat, rest := 0, cur;
    if '1' <= At(cur, 0) <= '9' {
      n, rest := ReadDigits(cur);
    } else {
      ValueStart(cur);
      assert cur[0..] == cur;
    }
    var value := if sign < 0 then -(n as int) else n;
    if (At(rest, 0) == '.' && IsDigit(At(rest, 1))) || At(rest, 0) == 'e' || At(rest, 0) == 'E' || !(INT_MIN <= value <= INT_MAX) {
      return Stop(OtherNumber);
    }
    p := Done(Number(value), rest);
  }

  // ---- chains of children ----

  /** The chain built so far, continued by what the rest of the text gives. */
  function LinkItems(children: seq<Json>, p: Parse<Items>): Parse<Items>
    decreases |children|
  {
    if children == [] then p
    else
      match LinkItems(children[1..], p) case Done(more, rest) => Done(Item(children[0], more), rest) case Stop(w) => Stop(w)
  }

  lemma {:induction false} LinkItem(children: seq<Json>, v: Json, p: Parse<Items>)
    ensures LinkItems(children + [v], p) == LinkItems(children, match p case Done(more, rest) => Done(Item(v, more), rest) case Stop(w) => Stop(w))
  {
    if children == [] {
      assert children + [v] == [v] && [v][1..] == [];
    } else {
      assert (children + [v])[1..] == children[1..] + [v];
      LinkItem(children[1..], v, p);
    }
  }

  lemma {:induction false} LinkStop(children: seq<Json>, w: Why)
    ensures LinkItems(children, Stop(w)) == Stop(w)
  {
    if children != [] { LinkStop(children[1..], w); }
  }

  datatype Entry = Entry(key: string, value: Json)

  function LinkMembers(children: seq<Entry>, p: Parse<Members>): Parse<Members>
    decreases |children|
  {
    if children == [] then p
    else
      match LinkMembers(children[1..], p)
      case Done(more, rest) => Done(Member(children[0].key, children[0].value, more), rest)
      case Stop(w) => Stop(w)
  }

  lemma {:induction false} LinkMember(children: seq<Entry>, e: Entry, p: Parse<Members>)
    ensures LinkMembers(children + [e], p)
            == LinkMembers(children, match p case Done(more, rest) => Done(Member(e.key, e.value, more), rest) case Stop(w) => Stop(w))
  {
    if children == [] {
      assert children + [e] == [e] && [e][1..] == [];
    } else {
      assert (children + [e])[1..] == children[1..] + [e];
      LinkMember(children[1..], e, p);
    }
  }

  lemma {:induction false} LinkMemberStop(children: seq<Entry>, w: Why)
    ensures LinkMembers(children, Stop(w)) == Stop(w)
  {
    if children != [] { LinkMemberStop(children[1..], w); }
  }

  // ---- recursive descent ----

  method ReadValue(t: string) returns (p: Parse<Json>)
    ensures p == ParseValue(t)
    decreases |t|, 4
  {
    hide ParseItems, ParseMembers, Literal, ParseNumber, Skip;
    if "null" <= t { return Done(Null, t[4..]); }
    if "false" <= t { return Done(False, t[5..]); }
    if "true" <= t { return Done(True, t[4..]); }
    var c := At(t, 0);
    if c == '"' {
      var s := ParseString(t);
      p := match s case Done(v, rest) => Done(String(v), rest) case Stop(w) => Stop(w);
    } else if StartsNumber(c) {
      p := ReadNumber(t);
    } else if c == '[' {
      var cur := SkipBlanks(t[1..]);
      if At(cur, 0) == ']' { return Done(Array(NoItem), cur[1..]); }
      var items := ReadItems(cur);
      p := match items case Done(v, rest) => Done(Array(v), rest) case Stop(w) => Stop(w);
    } else if c == '{' {
      var cur := SkipBlanks(t[1..]);
      if At(cur, 0) == '}' { return Done(Object(NoMember), cur[1..]); }
      var members := ReadMembers(cur);
      p := match members case Done(v, rest) => Done(Object(v), rest) case Stop(w) => Stop(w);
    } else {
      p := Stop(Malformed);
    }
  }

  /** parse_array after the opening bracket: one child, then one more for every comma. */
  method ReadItems(t: string) returns (p: Parse<Items>)
    ensures p == ParseItems(t)
    decreases |t|, 5
  {
    hide ParseItems, ParseValue, Skip, LinkItems;
    var children: seq<Json>, cur, more := [], t, true;
    LinkNone(ParseItems(t));
    while more
      invariant |cur| <= |t| && (more || At(cur, 0) != ',')
      invariant LinkItems(children, if more then ParseItems(cur) else AfterItem(cur)) == ParseItems(t)
      decreases |cur|, more
    {
      ItemsStep(cur);
      cur := SkipBlanks(cur);
      var child := ReadValue(cur);
      if child.Stop? {
        LinkStop(children, child.why);
        return Stop(child.why);
      }
      cur := SkipBlanks(child.rest);
      LinkItem(children, child.value, AfterItem(cur));
      children := children + [child.value];
      more := At(cur, 0) == ',';
      if more { cur := cur[1..]; }
    }
    if At(cur, 0) == ']' {
      p := LinkItems(children, Done(NoItem, cur[1..]));
    } else {
      LinkStop(children, Malformed);
      p := Stop(Malformed);
    }
  }

  lemma LinkNone(p: Parse<Items>)
    ensures LinkItems([], p) == p
  {}

  /** What follows an item: another one, or the end of the list. */
  function AfterItem(u: string): Parse<Items> {
    if At(u, 0) == ',' then ParseItems(u[1..]) else if At(u, 0) == ']' then Done(NoItem, u[1..]) else Stop(Malformed)
  }

  lemma ItemsStep(t: string)
    ensures ParseItems(t) ==
              match ParseValue(Skip(t))
              case Stop(w) => Stop(w)
              case Done(v, rest) => (match AfterItem(Skip(rest)) case Done(more, end) => Done(Item(v, more), end) case Stop(w) => Stop(w))
  {
    hide ParseValue, Skip;
  }

  function AfterMember(u: string): Parse<Members> {
    if At(u, 0) == ',' then ParseMembers(u[1..]) else if At(u, 0) == '}' then Done(NoMember, u[1..]) else Stop(Malformed)
  }

  lemma MembersStep(t: string)
    ensures ParseMembers(t) ==
              match ReadEntrySpec(t)
              case Stop(w) => Stop(w)
              case Done(e, rest) =>
                (match AfterMember(Skip(rest)) case Done(more, end) => Done(Member(e.key, e.value, more), end) case Stop(w) => Stop(w))
  {
    hide ParseValue, Skip, Literal;
  }

  /** A key, a colon and a value. */
  function ReadEntrySpec(t: string): (p: Parse<Entry>)
    ensures p.Done? ==> |p.rest| < |t|
  {
    match Literal(Skip(t))
    case Stop(w) => Stop(w)
    case Done(k, rest) =>
      var u := Skip(rest);
      if At(u, 0) != ':' then Stop(Malformed)
      else (match ParseValue(Skip(u[1..])) case Stop(w) => Stop(w) case Done(v, after) => Done(Entry(k, v), after))
  }

  method ReadEntry(t: string) returns (p: Parse<Entry>)
    ensures p == ReadEntrySpec(t)
    decreases |t|, 5
  {
    hide ParseValue, Skip, Literal;
    var cur := SkipBlanks(t);
    var key := ParseString(cur);
    if key.Stop? { return Stop(key.why); }
    cur := SkipBlanks(key.rest);
    if At(cur, 0) != ':' { return Stop(Malformed); }
    cur := SkipBlanks(cur[1..]);
    var value := ReadValue(cur);
    p := match value case Stop(w) => Stop(w) case Done(v, rest) => Done(Entry(key.value, v), rest);
  }

  /** parse_object after the opening brace. */
  method ReadMembers(t: string) returns (p: Parse<Members>)
    ensures p == ParseMembers(t)
    decreases |t|, 6
  {
    hide ParseMembers, ReadEntrySpec, Skip, LinkMembers;
    var children: seq<Entry>, cur, more := [], t, true;
    LinkNoMember(ParseMembers(t));
    while more
      invariant |cur| <= |t| && (more || At(cur, 0) != ',')
      invariant LinkMembers(children, if more then ParseMembers(cur) else AfterMember(cur)) == ParseMembers(t)
      decreases |cur|, more
    {
      MembersStep(cur);
      var child := ReadEntry(cur);
      if child.Stop? {
        LinkMemberStop(children, child.why);
        return Stop(child.why);
      }
      cur := SkipBlanks(child.rest);
      LinkMember(children, child.value, AfterMember(cur));
      children := children + [child.value];
      more := At(cur, 0) == ',';
      if more { cur := cur[1..]; }
    }
    if At(cur, 0) == '}' {
      p := LinkMembers(children, Done(NoMember, cur[1..]));
    } else {
      LinkMemberStop(children, Malformed);
      p := Stop(Malformed);
    }
  }

  lemma LinkNoMember(p: Parse<Members>)
    ensures LinkMembers([], p) == p
  {}
}
