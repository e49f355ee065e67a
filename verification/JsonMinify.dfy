/** cJSON_Minify: in-place removal of white space and comments, against the two print modes. */
module JsonMinify {
  import opened Bytes
  import opened Text
  import opened JsonString
  import opened Json
  import JsonLaws

  predicate White(c: char) {
    c == ' ' || c == '\t' || c == '\r' || c == '\n'
  }

  /** What is left at the end of a "//" comment. */
  function AfterLine(t: string): (r: string)
    ensures |r| <= |t| && r == t[|t| - |r|..]
  {
    if t == "" || t[0] == '\n' then t else AfterLine(t[1..])
  }

  /** What is left after the first "*" "/"; None when the cursor runs past the end. */
  function AfterComment(t: string): (r: Option<string>)
    ensures r.Some? ==> |r.value| < |t| && r.value == t[|t| - |r.value|..]
  {
    if t == "" then None
    else if t[0] == '*' && At(t, 1) == '/' then Some(t[2..])
    else AfterComment(t[1..])
  }

  /** How many characters are copied from behind an opening quote up to and with the closing one. */
  function Copied(t: string): (n: Option<nat>)
    ensures n.Some? ==> n.value <= |t|
  {
    if t == "" then None
    else if t[0] == '"' then Some(1)
    else if t[0] == '\\' then
      if |t| == 1 then None else (match Copied(t[2..]) case None => None case Some(n) => Some(n + 2))
    else (match Copied(t[1..]) case None => None case Some(n) => Some(n + 1))
  }

  function Before(s: string, m: Option<string>): Option<string> {
    match m case None => None case Some(t) => Some(s + t)
  }

  /** The minified text; None when the original reads past the end. */
  function Mini(t: string): (m: Option<string>)
    ensures m.Some? ==> |m.value| <= |t|
    decreases |t|
  {
    if t == "" then Some("")
    else if White(t[0]) then Mini(t[1..])
    else if t[0] == '/' && At(t, 1) == '/' then
      assert |AfterLine(t)| < |t|;
      Mini(AfterLine(t))
    else if t[0] == '/' && At(t, 1) == '*' then
      (match AfterComment(t) case None => None case Some(r) => Mini(r))
    else if t[0] == '"' then
      (match Copied(t[1..]) case None => None case Some(n) => Before(t[..n + 1], Mini(t[n + 1..])))
    else Before([t[0]], Mini(t[1..]))
  }

  // ---- printed texts ----

  predicate Plain(s: string) {
    forall i | 0 <= i < |s| :: !White(s[i]) && s[i] != '"' && s[i] != '/'
  }

  lemma MiniOther(t: string)
    requires t != "" && !White(t[0]) && t[0] != '"' && t[0] != '/'
    ensures Mini(t) == Before([t[0]], Mini(t[1..]))
  {}

  lemma {:induction false} MiniPlain(s: string, t: string)
    requires Plain(s)
    ensures Mini(s + t) == Before(s, Mini(t))
  {
    hide Mini, Before;
    if s == "" {
      assert s + t == t;
      BeforeNothing(Mini(t));
    } else {
      MiniPlain(s[1..], t);
      MiniOther(s + t);
      assert (s + t)[1..] == s[1..] + t && s == [s[0]] + s[1..];
      BeforeTwice([s[0]], s[1..], Mini(t));
    }
  }

  lemma BeforeNothing(m: Option<string>)
    ensures Before("", m) == m
  {
    if m.Some? { assert "" + m.value == m.value; }
  }

  lemma {:induction false} MiniWhite(b: string, t: string)
    requires forall i | 0 <= i < |b| :: White(b[i])
    ensures Mini(b + t) == Mini(t)
  {
    if b == "" {
      assert b + t == t;
    } else {
      MiniWhite(b[1..], t);
      assert (b + t)[1..] == b[1..] + t;
    }
  }

  lemma {:induction false} CopiedOver(s: string, t: string)
    requires forall i | 0 <= i < |s| :: s[i] != '"' && s[i] != '\\'
    ensures Copied(s + t) == if Copied(t).None? then None else Some(|s| + Copied(t).value)
  {
    if s == "" {
      assert s + t == t;
    } else {
      CopiedOver(s[1..], t);
      assert (s + t)[1..] == s[1..] + t;
    }
  }

  lemma HexIsPlain(n: nat)
    requires n < 0x10000
    ensures forall i | 0 <= i < 4 :: Hex4Of(n)[i] != '"' && Hex4Of(n)[i] != '\\'
  {}

  /** An escape is one ordinary character, or a backslash, any character, and ordinary ones. */
  lemma EscapeShape(c: char)
    ensures var e := Escape(c);
            && (|e| == 1 ==> e[0] != '"' && e[0] != '\\')
            && (|e| > 1 ==> e[0] == '\\' && forall i | 2 <= i < |e| :: e[i] != '"' && e[i] != '\\')
  {
    hide Hex4Of;
    if |Escape(c)| > 2 { HexIsPlain(c as int); }
  }

  lemma CopiedPair(t: string)
    requires |t| >= 2 && t[0] == '\\'
    ensures Copied(t) == if Copied(t[2..]).None? then None else Some(2 + Copied(t[2..]).value)
  {}

  lemma CopiedEscape(c: char, t: string)
    ensures Copied(Escape(c) + t) == if Copied(t).None? then None else Some(|Escape(c)| + Copied(t).value)
  {
    hide Escape, Copied;
    var e := Escape(c);
    EscapeShape(c);
    if |e| == 1 {
      CopiedOver(e, t);
    } else {
      assert (e + t)[2..] == e[2..] + t;
      CopiedPair(e + t);
      CopiedOver(e[2..], t);
    }
  }

  lemma {:induction false} CopiedQuote(s: string, t: string)
    ensures Copied(Escaped(s) + ("\"" + t)) == Some(|Escaped(s)| + 1)
  {
    hide Escape;
    if s == "" {
      assert Escaped(s) + ("\"" + t) == "\"" + t;
    } else {
      CopiedQuote(s[1..], t);
      CopiedEscape(s[0], Escaped(s[1..]) + ("\"" + t));
      assert Escaped(s) + ("\"" + t) == Escape(s[0]) + (Escaped(s[1..]) + ("\"" + t));
    }
  }

  lemma MiniQuote(s: string, t: string)
    ensures Mini(Quote(s) + t) == Before(Quote(s), Mini(t))
  {
    hide Escaped, Copied;
    CopiedQuote(s, t);
    var u := Quote(s) + t;
    assert u[1..] == Escaped(s) + ("\"" + t);
    assert u[..|Quote(s)|] == Quote(s) && u[|Quote(s)|..] == t;
  }

  lemma BeforeTwice(a: string, b: string, m: Option<string>)
    ensures Before(a, Before(b, m)) == Before(a + b, m)
  {
    if m.Some? { assert a + (b + m.value) == a + b + m.value; }
  }

  lemma MiniIf(fmt: bool, b: string, t: string)
    requires forall i | 0 <= i < |b| :: White(b[i])
    ensures Mini(If(fmt, b) + t) == Mini(t)
  {
    MiniWhite(If(fmt, b), t);
  }

  lemma DecimalPlain(n: int)
    ensures Plain(Decimal(n))
  {}

  /** Minifying a printed value, in either mode, leaves its unformatted print. */
  lemma MiniValue(j: Json, depth: nat, fmt: bool, t: string)
    ensures Mini(Print(j, depth, fmt) + t) == Before(Print(j, 0, false), Mini(t))
    decreases j
  {
    hide Mini, PrintItems, PrintMembers, Quote, Decimal;
    match j {
      case Number(n) => DecimalPlain(n); MiniPlain(Decimal(n), t);
      case String(s) => MiniQuote(s, t);
      case Array(items) => MiniArray(items, depth, fmt, t);
      case Object(members) => MiniObject(members, depth, fmt, t);
      case _ => MiniPlain(Print(j, depth, fmt), t);
    }
  }

  lemma MiniArray(items: Items, depth: nat, fmt: bool, t: string)
    ensures Mini(Print(Array(items), depth, fmt) + t) == Before(Print(Array(items), 0, false), Mini(t))
    decreases items, 1
  {
    hide Mini, PrintItems;
    var inner := PrintItems(items, depth + 1, fmt);
    assert Print(Array(items), depth, fmt) + t == "[" + (inner + ("]" + t));
    MiniPlain("[", inner + ("]" + t));
    MiniItems(items, depth + 1, 1, fmt, "]" + t);
    MiniPlain("]", t);
    var small := PrintItems(items, 1, false);
    BeforeTwice(small, "]", Mini(t));
    BeforeTwice("[", small + "]", Mini(t));
    assert "[" + (small + "]") == Print(Array(items), 0, false);
  }

  lemma MiniItems(items: Items, depth: nat, d: nat, fmt: bool, t: string)
    ensures Mini(PrintItems(items, depth, fmt) + t) == Before(PrintItems(items, d, false), Mini(t))
    decreases items, 0
  {
    hide Mini, Print, PrintItems, Before;
    ItemsText(items, depth, fmt);
    ItemsText(items, d, false);
    if items.NoItem? {
      assert "" + t == t;
      BeforeNothing(Mini(t));
    } else {
      var q := Print(items.value, d, false);
      SameUnformatted(items.value, d, 0);
      JsonLaws.NextItemText(items, depth, fmt, t);
      if items.next.NoItem? {
        MiniValue(items.value, depth, fmt, t);
      } else {
        var more, small := PrintItems(items.next, depth, fmt), PrintItems(items.next, d, false);
        MiniValue(items.value, depth, fmt, "," + (If(fmt, " ") + (more + t)));
        MiniPlain(",", If(fmt, " ") + (more + t));
        MiniIf(fmt, " ", more + t);
        MiniItems(items.next, depth, d, fmt, t);
        BeforeTwice(",", small, Mini(t));
        BeforeTwice(q, "," + small, Mini(t));
        assert q + "," + "" + small == q + ("," + small);
      }
    }
  }

  lemma ItemsText(items: Items, depth: nat, fmt: bool)
    ensures PrintItems(items, depth, fmt) ==
              if items.NoItem? then ""
              else if items.next.NoItem? then Print(items.value, depth, fmt)
              else Print(items.value, depth, fmt) + "," + If(fmt, " ") + PrintItems(items.next, depth, fmt)
  {
    hide Print;
  }

  /** Without formatting the depth does not show. */
  lemma SameUnformatted(j: Json, d: nat, e: nat)
    ensures Print(j, d, false) == Print(j, e, false)
    decreases j
  {
    if j.Array? { SameItems(j.items, d + 1, e + 1); }
    if j.Object? { SameMembers(j.members, d + 1, e + 1); }
  }

  lemma SameItems(items: Items, d: nat, e: nat)
    ensures PrintItems(items, d, false) == PrintItems(items, e, false)
    decreases items
  {
    if items.Item? {
      SameUnformatted(items.value, d, e);
      SameItems(items.next, d, e);
    }
  }

  lemma SameMembers(members: Members, d: nat, e: nat)
    ensures PrintMembers(members, d, false) == PrintMembers(members, e, false)
    decreases members
  {
    if members.Member? {
      SameUnformatted(members.member, d, e);
      SameMembers(members.next, d, e);
    }
  }

  /** The closing indentation of an object. */
  function Close(members: Members, depth: nat, fmt: bool): (s: string)
    ensures forall i | 0 <= i < |s| :: White(s[i])
  {
    If(fmt, if members.NoMember? then Tabs(depth - 1) else Tabs(depth))
  }

  lemma ObjectText(members: Members, depth: nat, fmt: bool, t: string)
    ensures Print(Object(members), depth, fmt) + t
            == "{" + (If(fmt, "\n") + (PrintMembers(members, depth + 1, fmt) + (Close(members, depth, fmt) + ("}" + t))))
  {
    hide Tabs;
    if members.Member? { hide PrintMembers; }
  }

  lemma MiniObject(members: Members, depth: nat, fmt: bool, t: string)
    ensures Mini(Print(Object(members), depth, fmt) + t) == Before(Print(Object(members), 0, false), Mini(t))
    decreases members, 1
  {
    hide Mini, Print, PrintMembers, Before, Close;
    var inner := PrintMembers(members, depth + 1, fmt);
    var close := Close(members, depth, fmt);
    var small := PrintMembers(members, 1, false);
    ObjectText(members, depth, fmt, t);
    MiniPlain("{", If(fmt, "\n") + (inner + (close + ("}" + t))));
    MiniIf(fmt, "\n", inner + (close + ("}" + t)));
    MiniMembers(members, depth + 1, 1, fmt, close + ("}" + t));
    MiniWhite(close, "}" + t);
    MiniPlain("}", t);
    BeforeTwice(small, "}", Mini(t));
    BeforeTwice("{", small + "}", Mini(t));
    SmallObject(members);
  }

  lemma SmallObject(members: Members)
    ensures Print(Object(members), 0, false) == "{" + (PrintMembers(members, 1, false) + "}")
  {
    if members.Member? { hide PrintMembers; }
  }

  lemma MembersText(members: Members, depth: nat, fmt: bool)
    ensures PrintMembers(members, depth, fmt) ==
              if members.NoMember? then ""
              else
                var line := Line(members.key, Print(members.member, depth, fmt), depth, fmt);
                if members.next.NoMember? then line + If(fmt, "\n")
                else line + "," + If(fmt, "\n") + PrintMembers(members.next, depth, fmt)
  {
    hide Print, Line;
  }

  lemma MiniLine(k: string, v: Json, depth: nat, d: nat, fmt: bool, t: string)
    requires Mini(Print(v, depth, fmt) + t) == Before(Print(v, d, false), Mini(t))
    ensures Mini(Line(k, Print(v, depth, fmt), depth, fmt) + t) == Before(Line(k, Print(v, d, false), d, false), Mini(t))
  {
    hide Mini, Print, Quote, Tabs;
    var p, q := Print(v, depth, fmt), Print(v, d, false);
    var value := If(fmt, "\t") + (p + t);
    assert Line(k, p, depth, fmt) + t == If(fmt, Tabs(depth)) + (Quote(k) + (":" + value));
    MiniIf(fmt, Tabs(depth), Quote(k) + (":" + value));
    MiniQuote(k, ":" + value);
    MiniPlain(":", value);
    MiniIf(fmt, "\t", p + t);
    BeforeTwice(":", q, Mini(t));
    BeforeTwice(Quote(k), ":" + q, Mini(t));
    assert Line(k, q, d, false) == Quote(k) + (":" + q);
  }

  lemma MiniMembers(members: Members, depth: nat, d: nat, fmt: bool, t: string)
    ensures Mini(PrintMembers(members, depth, fmt) + t) == Before(PrintMembers(members, d, false), Mini(t))
    decreases members, 0
  {
    hide Mini, Print, PrintMembers, Line;
    MembersText(members, depth, fmt);
    MembersText(members, d, false);
    if members.NoMember? {
      assert "" + t == t;
      if Mini(t).Some? { assert "" + Mini(t).value == Mini(t).value; }
    } else {
      var line := Line(members.key, Print(members.member, depth, fmt), depth, fmt);
      var short := Line(members.key, Print(members.member, d, false), d, false);
      SameUnformatted(members.member, d, 0);
      if members.next.NoMember? {
        var w := If(fmt, "\n") + t;
        assert PrintMembers(members, depth, fmt) + t == line + w;
        MiniValue(members.member, depth, fmt, w);
        MiniLine(members.key, members.member, depth, d, fmt, w);
        MiniIf(fmt, "\n", t);
        assert PrintMembers(members, d, false) == short;
      } else {
        var more, small := PrintMembers(members.next, depth, fmt), PrintMembers(members.next, d, false);
        var w := "," + (If(fmt, "\n") + (more + t));
        assert PrintMembers(members, depth, fmt) + t == line + w;
        MiniValue(members.member, depth, fmt, w);
        MiniLine(members.key, members.member, depth, d, fmt, w);
        MiniPlain(",", If(fmt, "\n") + (more + t));
        MiniIf(fmt, "\n", more + t);
        MiniMembers(members.next, depth, d, fmt, t);
        BeforeTwice(",", small, Mini(t));
        BeforeTwice(short, "," + small, Mini(t));
        assert PrintMembers(members, d, false) == short + ("," + small);
      }
    }
  }

  /** Minifying either print of any tree gives its unformatted print. */
  lemma MinifiedPrint(j: Json, fmt: bool)
    ensures Mini(Print(j, 0, fmt)) == Some(Print(j, 0, false))
  {
    hide Mini, Print;
    MiniValue(j, 0, fmt, "");
    MiniEmpty();
    assert Print(j, 0, fmt) + "" == Print(j, 0, fmt) && Print(j, 0, false) + "" == Print(j, 0, false);
  }

  lemma MiniEmpty()
    ensures Mini("") == Some("")
  {}

  // ---- in place ----

  /** The part of the buffer from `json` on still holds the text and its NUL. */
  ghost predicate Unread(a: array<char>, t: string, json: nat)
    reads a
  {
    |t| < a.Length && a[|t|] == '\0' && forall i | json <= i < |t| :: a[i] == t[i]
  }

  lemma NotNul(t: string, i: nat)
    requires NoNul(t) && i < |t|
    ensures t[i] != '\0'
  {
    assert t[i] in t;
  }

  lemma LineStep(t: string, i: nat)
    requires i <= |t|
    ensures AfterLine(t[i..]) == if i < |t| && t[i] != '\n' then AfterLine(t[i + 1..]) else t[i..]
  {
    if i < |t| { assert t[i..][1..] == t[i + 1..]; }
  }

  lemma CommentStep(t: string, i: nat)
    requires i <= |t|
    ensures AfterComment(t[i..]) ==
              if i == |t| then None
              else if t[i] == '*' && i + 1 < |t| && t[i + 1] == '/' then Some(t[i + 2..])
              else AfterComment(t[i + 1..])
  {
    if i < |t| {
      assert t[i..][1..] == t[i + 1..];
      if i + 1 < |t| { assert t[i..][2..] == t[i + 2..]; }
    }
  }

  method SkipLine(a: array<char>, ghost t: string, start: nat) returns (json: nat)
    requires NoNul(t) && start <= |t| && Unread(a, t, start)
    ensures start <= json <= |t| && t[json..] == AfterLine(t[start..])
  {
    hide AfterLine, NoNul;
    json := start;
    while a[json] != '\0' && a[json] != '\n'
      invariant start <= json <= |t| && AfterLine(t[json..]) == AfterLine(t[start..])
      decreases |t| - json
    {
      LineStep(t, json);
      json := json + 1;
    }
    if json < |t| { NotNul(t, json); }
    LineStep(t, json);
  }

  method SkipComment(a: array<char>, ghost t: string, start: nat) returns (json: nat, over: bool)
    requires NoNul(t) && start <= |t| && Unread(a, t, start)
    ensures over <==> AfterComment(t[start..]).None?
    ensures !over ==> start < json <= |t| && AfterComment(t[start..]) == Some(t[json..])
  {
    hide AfterComment, NoNul;
    json := start;
    while a[json] != '\0' && !(a[json] == '*' && a[json + 1] == '/')
      invariant start <= json <= |t| && AfterComment(t[json..]) == AfterComment(t[start..])
      decreases |t| - json
    {
      CommentStep(t, json);
      json := json + 1;
    }
    CommentStep(t, json);
    over := a[json] == '\0';
    if json < |t| { NotNul(t, json); }
    if !over { json := json + 2; }
  }

  /** How far a literal reaches, seen from inside it. */
  ghost predicate CopiedSoFar(t: string, start: nat, json: nat) {
    start <= json <= |t| &&
    var whole, rest := Copied(t[start..]), Copied(t[json..]);
    if rest.None? then whole.None? else whole == Some(json - start + rest.value)
  }

  lemma CopiedMove(t: string, start: nat, json: nat, k: nat)
    requires CopiedSoFar(t, start, json) && json + k <= |t| && json < |t|
    requires t[json] != '"' && k == if t[json] == '\\' then 2 else 1
    ensures CopiedSoFar(t, start, json + k)
  {
    assert t[json..][k..] == t[json + k..];
  }

  lemma CopiedEnd(t: string, start: nat, json: nat)
    requires CopiedSoFar(t, start, json)
    ensures json == |t| ==> Copied(t[start..]).None?
    ensures json + 1 == |t| && t[json] == '\\' ==> Copied(t[start..]).None?
    ensures json < |t| && t[json] == '"' ==> Copied(t[start..]) == Some(json - start + 1)
  {}

  lemma CopiedStart(t: string, start: nat)
    requires start <= |t|
    ensures CopiedSoFar(t, start, start)
  {}

  /**
   The buffer holds `before` and the part of `t` that was read from `start` on; the part
   not yet read and everything behind the NUL are untouched.
   */
  ghost predicate Moved(a: array<char>, before: string, behind: string, t: string, start: nat, json: nat, into: nat)
    reads a
  {
    && start <= json <= |t| && |before| <= start && into == |before| + (json - start) && Unread(a, t, json)
    && a[..into] == before + t[start..json] && a[|t| + 1..] == behind
  }

  lemma MovedRead(a: array<char>, before: string, behind: string, t: string, start: nat, json: nat, into: nat)
    requires Moved(a, before, behind, t, start, json, into) && NoNul(t)
    ensures start <= json <= |t| < a.Length
    ensures a[json] == At(t, json) && (a[json] == '\0' <==> json == |t|)
  {
    if json < |t| { NotNul(t, json); }
  }

  lemma MovedStart(a: array<char>, t: string, start: nat, to: nat)
    requires start <= |t| && to <= start && Unread(a, t, start)
    ensures Moved(a, a[..to], a[|t| + 1..], t, start, start, to)
  {
    assert a[..to] + t[start..start] == a[..to];
  }

  /** Moves one character down. */
  method CopyOne(a: array<char>, ghost before: string, ghost behind: string, ghost t: string, ghost start: nat, json: nat, into: nat)
    requires Moved(a, before, behind, t, start, json, into) && json < |t| < a.Length
    modifies a
    ensures Moved(a, before, behind, t, start, json + 1, into + 1)
  {
    a[into] := a[json];
    assert a[..into + 1] == old(a[..into]) + [t[json]];
    assert t[start..json + 1] == t[start..json] + [t[json]];
    assert a[|t| + 1..] == old(a[|t| + 1..]);
  }

  /** Copies a character of a literal, an escape as a whole. */
  method CopyUnit(a: array<char>, ghost before: string, ghost behind: string, ghost t: string, ghost start: nat, at: nat, to: nat)
    returns (json: nat, into: nat, over: bool)
    requires Moved(a, before, behind, t, start, at, to) && NoNul(t) && at < |t| < a.Length && t[at] != '"' && start < at
    requires CopiedSoFar(t, start + 1, at) && a[at] == t[at]
    modifies a
    ensures !over ==> at < json && CopiedSoFar(t, start + 1, json)
    ensures over ==> Copied(t[start + 1..]).None?
    ensures Moved(a, before, behind, t, start, json, into)
  {
    hide Copied, CopiedSoFar, NoNul, Moved;
    json, into, over := at, to, false;
    if a[json] == '\\' {
      CopyOne(a, before, behind, t, start, json, into);
      json, into := json + 1, into + 1;
      MovedRead(a, before, behind, t, start, json, into);
      if a[json] == '\0' {
        CopiedEnd(t, start + 1, at);
        over := true;
        return;
      }
    }
    CopyOne(a, before, behind, t, start, json, into);
    json, into := json + 1, into + 1;
    MovedRead(a, before, behind, t, start, json, into);
    CopiedMove(t, start + 1, at, json - at);
  }

  /** Copies a string literal down to `into`, escapes and all. */
  method CopyLiteral(a: array<char>, ghost behind: string, ghost t: string, start: nat, to: nat) returns (json: nat, into: nat, over: bool)
    requires NoNul(t) && start < |t| && t[start] == '"' && to <= start && Unread(a, t, start) && behind == a[|t| + 1..]
    modifies a
    ensures over <==> Copied(t[start + 1..]).None?
    ensures !over ==> Copied(t[start + 1..]) == Some(json - start - 1) && start < json
    ensures Moved(a, old(a[..to]), behind, t, start, json, into)
  {
    hide Copied, CopiedSoFar, NoNul, Moved;
    ghost var before := a[..to];
    MovedStart(a, t, start, to);
    CopyOne(a, before, behind, t, start, start, to);
    json, into := start + 1, to + 1;
    CopiedStart(t, start + 1);
    MovedRead(a, before, behind, t, start, json, into);
    while a[json] != '\0' && a[json] != '"'
      invariant start < json <= |t| < a.Length && Moved(a, before, behind, t, start, json, into) && CopiedSoFar(t, start + 1, json)
      invariant a[json] == At(t, json) && (a[json] == '\0' <==> json == |t|)
      decreases |t| - json
    {
      json, into, over := CopyUnit(a, before, behind, t, start, json, into);
      if over { return; }
      MovedRead(a, before, behind, t, start, json, into);
    }
    over := a[json] == '\0';
    CopiedEnd(t, start + 1, json);
    if !over {
      CopyOne(a, before, behind, t, start, json, into);
      json, into := json + 1, into + 1;
    }
  }

  /** What has been written so far and the rest of the text make up the result. */
  ghost predicate Squeezed(a: array<char>, behind: string, t: string, json: nat, into: nat)
    reads a
  {
    && into <= json <= |t| && Unread(a, t, json) && a[|t| + 1..] == behind
    && Before(a[..into], Mini(t[json..])) == Mini(t)
  }

  lemma WhiteStep(t: string, i: nat)
    requires i < |t| && White(t[i])
    ensures Mini(t[i..]) == Mini(t[i + 1..])
  {
    assert t[i..][1..] == t[i + 1..];
  }

  lemma LineCommentStep(t: string, i: nat, j: nat)
    requires i < |t| && t[i] == '/' && At(t, i + 1) == '/' && j <= |t| && t[j..] == AfterLine(t[i..])
    ensures Mini(t[i..]) == Mini(t[j..])
  {
    hide AfterLine;
  }

  lemma BlockCommentStep(t: string, i: nat)
    requires i < |t| && t[i] == '/' && At(t, i + 1) == '*'
    ensures Mini(t[i..]) == match AfterComment(t[i..]) case None => None case Some(r) => Mini(r)
  {
    hide AfterComment;
  }

  lemma LiteralStep(t: string, i: nat)
    requires i < |t| && t[i] == '"'
    ensures Mini(t[i..]) ==
              match Copied(t[i + 1..]) case None => None case Some(n) => Before(t[i..i + 1 + n], Mini(t[i + 1 + n..]))
  {
    hide Copied;
    assert t[i..][1..] == t[i + 1..];
    if Copied(t[i + 1..]).Some? {
      var n := Copied(t[i + 1..]).value;
      assert t[i..][..n + 1] == t[i..i + 1 + n] && t[i..][n + 1..] == t[i + 1 + n..];
    }
  }

  lemma OtherStep(t: string, i: nat)
    requires i < |t| && !White(t[i]) && t[i] != '"' && !(t[i] == '/' && (At(t, i + 1) == '/' || At(t, i + 1) == '*'))
    ensures Mini(t[i..]) == Before(t[i..i + 1], Mini(t[i + 1..]))
  {
    hide Copied;
    assert t[i..][1..] == t[i + 1..] && [t[i]] == t[i..i + 1];
  }

  lemma SqueezedMoved(a: array<char>, before: string, behind: string, t: string, start: nat, json: nat, into: nat)
    requires Moved(a, before, behind, t, start, json, into) && start <= json <= |t|
    requires Before(before, Mini(t[start..])) == Mini(t) && Mini(t[start..]) == Before(t[start..json], Mini(t[json..]))
    ensures Squeezed(a, behind, t, json, into)
  {
    hide Mini, Before;
    BeforeTwice(before, t[start..json], Mini(t[json..]));
  }

  /** The next character that is kept or dropped, comment or literal. */
  method MinifyStep(a: array<char>, ghost behind: string, ghost t: string, start: nat, to: nat)
    returns (json: nat, into: nat, over: bool)
    requires Squeezed(a, behind, t, start, to) && NoNul(t) && start < |t| < a.Length
    requires a[start] == t[start] && a[start + 1] == At(t, start + 1)
    modifies a
    ensures over ==> Mini(t).None? && a[|t| + 1..] == behind
    ensures !over ==> start < json && Squeezed(a, behind, t, json, into)
  {
    hide Mini, Copied, AfterLine, AfterComment, NoNul, Moved;
    json, into, over := start, to, false;
    var c := a[start];
    if c == ' ' || c == '\t' || c == '\r' || c == '\n' {
      json := start + 1;
      WhiteStep(t, start);
    } else if c == '/' && a[start + 1] == '/' {
      json := SkipLine(a, t, start);
      LineCommentStep(t, start, json);
      LineStep(t, start);
      AfterLineShorter(t, start, json);
    } else if c == '/' && a[start + 1] == '*' {
      json, over := SkipComment(a, t, start);
      BlockCommentStep(t, start);
    } else {
      ghost var before := a[..to];
      if c == '"' {
        json, into, over := CopyLiteral(a, behind, t, start, to);
        LiteralStep(t, start);
        MovedBehind(a, before, behind, t, start, json, into);
      } else {
        MovedStart(a, t, start, to);
        CopyOne(a, before, behind, t, start, start, to);
        json, into := start + 1, to + 1;
        OtherStep(t, start);
      }
      if !over { SqueezedMoved(a, before, behind, t, start, json, into); }
    }
  }

  lemma MovedBehind(a: array<char>, before: string, behind: string, t: string, start: nat, json: nat, into: nat)
    requires Moved(a, before, behind, t, start, json, into)
    ensures |t| < a.Length && a[|t| + 1..] == behind && json <= |t|
  {}

  lemma AfterLineShorter(t: string, i: nat, j: nat)
    requires i < |t| && t[i] != '\n' && j <= |t| && t[j..] == AfterLine(t[i..])
    ensures i < j
  {
    LineStep(t, i);
    assert |AfterLine(t[i + 1..])| <= |t| - i - 1;
  }

  /**
   cJSON_Minify on a buffer that holds the text `t` and its NUL. `over` says that the
   cursor would have run past the NUL; the write cursor never passes the read cursor.
   */
  method Minify(a: array<char>, ghost t: string) returns (over: bool)
    requires NoNul(t) && |t| < a.Length && a[..|t|] == t && a[|t|] == '\0'
    modifies a
    ensures over <==> Mini(t).None?
    ensures !over ==> var m := Mini(t).value; |m| <= |t| && a[..|m|] == m && a[|m|] == '\0'
    ensures a[|t| + 1..] == old(a[|t| + 1..])
  {
    hide Mini, NoNul;
    ghost var behind := a[|t| + 1..];
    var json: nat, into: nat := 0, 0;
    assert t[0..] == t && a[..0] == "";
    BeforeNothing(Mini(t));
    forall i | 0 <= i < |t| ensures a[i] == t[i] { assert a[..|t|][i] == t[i]; }
    over := false;
    while a[json] != '\0'
      invariant json <= |t| < a.Length && Squeezed(a, behind, t, json, into)
      decreases |t| - json
    {
      json, into, over := MinifyStep(a, behind, t, json, into);
      if over { return; }
    }
    if json < |t| { NotNul(t, json); }
    assert t[json..] == "";
    MiniEmpty();
    assert a[..into] + "" == a[..into];
    assert Mini(t) == Some(a[..into]);
    a[into] := '\0';
  }
}
