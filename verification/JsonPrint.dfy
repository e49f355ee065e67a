/** The printers as they fill their buffers, whose sizes are computed beforehand. */
module JsonPrint {
  import opened Text
  import opened JsonString
  import opened Json

  /** strcpy into a buffer; the text and a NUL have to fit. */
  method StrCpy(buf: array<char>, at: nat, s: string) returns (end: nat)
    requires at + |s| < buf.Length
    modifies buf
    ensures end == at + |s| && buf[..end] == old(buf[..at]) + s && buf[end] == '\0'
  {
    end := at;
    while end < at + |s|
      invariant at <= end <= at + |s| && buf[..end] == old(buf[..at]) + s[..end - at]
    {
      buf[end] := s[end - at];
      end := end + 1;
      assert s[..end - at] == s[..end - 1 - at] + [s[end - 1 - at]];
    }
    assert s[..|s|] == s;
    buf[end] := '\0';
  }

  // ---- strings ----

  /** strchr on the characters with a short escape. */
  predicate Short(c: char) {
    c == '"' || c == '\\' || c == '\U{8}' || c == '\U{c}' || c == '\n' || c == '\r' || c == '\t'
  }

  lemma EscapeLength(c: char)
    ensures |Escape(c)| == if Short(c) then 2 else if c < ' ' then 6 else 1
  {
    hide Hex4Of;
  }

  lemma {:induction false} EscapedSplit(s: string, i: nat)
    requires i < |s|
    ensures Escaped(s[i..]) == Escape(s[i]) + Escaped(s[i + 1..])
  {
    assert s[i..][0] == s[i] && s[i..][1..] == s[i + 1..];
  }

  /** The first pass of print_string_ptr. */
  method EscapedLength(str: string) returns (len: nat)
    ensures len == |Escaped(str)|
  {
    hide Escape;
    var i := 0;
    len := 0;
    assert str[0..] == str;
    while i < |str|
      invariant i <= |str| && len + |Escaped(str[i..])| == |Escaped(str)|
    {
      EscapedSplit(str, i);
      EscapeLength(str[i]);
      len := len + 1;
      if Short(str[i]) {
        len := len + 1;
      } else if str[i] < ' ' {
        len := len + 5;
      }
      i := i + 1;
    }
  }

  /** print_string_ptr: the second pass fills the buffer of len + 3 exactly. */
  method PrintString(str: string) returns (out: string)
    ensures out == Quote(str)
  {
    hide Escape, Escaped;
    var len := EscapedLength(str);
    var buf := new char[len + 3];
    var ptr: nat := StrCpy(buf, 0, "\"");
    var i := 0;
    assert str[0..] == str && buf[..ptr] == "\"";
    while i < |str|
      invariant i <= |str| && ptr + |Escaped(str[i..])| + 2 == buf.Length
      invariant buf[..ptr] + Escaped(str[i..]) == "\"" + Escaped(str)
    {
      EscapedSplit(str, i);
      ghost var written := buf[..ptr];
      ptr := StrCpy(buf, ptr, Escape(str[i]));
      assert written + (Escape(str[i]) + Escaped(str[i + 1..])) == (written + Escape(str[i])) + Escaped(str[i + 1..]);
      i := i + 1;
    }
    EscapedEnd(str);
    assert buf[..ptr] == "\"" + Escaped(str);
    ptr := StrCpy(buf, ptr, "\"");
    assert ptr + 1 == buf.Length;
    out := buf[..ptr];
  }

  lemma EscapedEnd(s: string)
    ensures Escaped(s[|s|..]) == "" && forall t: string {:trigger t + Escaped(s[|s|..])} :: t + Escaped(s[|s|..]) == t
  {
    assert s[|s|..] == "";
  }

  // ---- arrays ----

  /** The entries with their separators. */
  function Joined(entries: seq<string>, fmt: bool): string {
    if entries == [] then ""
    else if |entries| == 1 then entries[0]
    else entries[0] + "," + If(fmt, " ") + Joined(entries[1..], fmt)
  }

  /** The length that print_array adds up, beyond its first five bytes. */
  function ArrayRoom(entries: seq<string>, fmt: bool): nat {
    if entries == [] then 0 else |entries[0]| + 2 + (if fmt then 1 else 0) + ArrayRoom(entries[1..], fmt)
  }

  lemma {:induction false} JoinedFits(entries: seq<string>, fmt: bool)
    ensures |Joined(entries, fmt)| <= ArrayRoom(entries, fmt)
  {
    if |entries| > 1 { JoinedFits(entries[1..], fmt); }
  }

  lemma JoinedSplit(entries: seq<string>, i: nat, fmt: bool)
    requires i < |entries|
    ensures Joined(entries[i..], fmt) == (entries[i] + if i == |entries| - 1 then "" else "," + If(fmt, " ")) + Joined(entries[i + 1..], fmt)
  {
    assert entries[i..][0] == entries[i] && entries[i..][1..] == entries[i + 1..];
  }

  method PutEntry(buf: array<char>, at: nat, entry: string, last: bool, fmt: bool, ghost written: string) returns (end: nat)
    requires at + |entry| + (if last then 0 else 1 + |If(fmt, " ")|) < buf.Length && buf[..at] == written
    modifies buf
    ensures end == at + |entry| + (if last then 0 else 1 + |If(fmt, " ")|)
    ensures buf[..end] == written + (entry + if last then "" else "," + If(fmt, " "))
  {
    end := StrCpy(buf, at, entry);
    assert buf[..end] == written + entry;
    if !last {
      end := StrCpy(buf, end, "," + If(fmt, " "));
      assert written + entry + ("," + If(fmt, " ")) == written + (entry + ("," + If(fmt, " ")));
    } else {
      assert entry + "" == entry;
    }
  }

  /** The second half of print_array, on a buffer of the precomputed size. */
  method ComposeArray(entries: seq<string>, fmt: bool, len: nat) returns (out: string)
    requires entries != [] && len == 5 + ArrayRoom(entries, fmt)
    ensures out == "[" + Joined(entries, fmt) + "]" && |out| + 1 <= len
  {
    hide Joined, ArrayRoom, If;
    JoinedFits(entries, fmt);
    var buf := new char[len];
    var ptr: nat := StrCpy(buf, 0, "[");
    var i := 0;
    ghost var all := "[" + Joined(entries, fmt);
    assert entries[0..] == entries && buf[..ptr] == "[";
    JoinedEnd(fmt);
    while i < |entries|
      invariant i <= |entries| && ptr + |Joined(entries[i..], fmt)| == |all|
      invariant buf[..ptr] + Joined(entries[i..], fmt) == all
    {
      ghost var written, after := buf[..ptr], Joined(entries[i + 1..], fmt);
      JoinedSplit(entries, i, fmt);
      ghost var piece := entries[i] + if i == |entries| - 1 then "" else "," + If(fmt, " ");
      Reassociate(written, piece, after);
      ptr := PutEntry(buf, ptr, entries[i], i == |entries| - 1, fmt, written);
      i := i + 1;
    }
    assert entries[i..] == [] && buf[..ptr] + "" == buf[..ptr];
    ptr := StrCpy(buf, ptr, "]");
    out := buf[..ptr];
  }

  lemma JoinedEnd(fmt: bool)
    ensures Joined([], fmt) == ""
  {}

  lemma Reassociate(a: string, b: string, c: string)
    ensures a + (b + c) == a + b + c
  {}

  // ---- objects ----

  /** The lines of an object: printed names and values. */
  function Lines(names: seq<string>, entries: seq<string>, depth: nat, fmt: bool): string
    requires |names| == |entries|
  {
    if names == [] then ""
    else LineOf(names, entries, 0, depth, fmt) + Lines(names[1..], entries[1..], depth, fmt)
  }

  function LineOf(names: seq<string>, entries: seq<string>, i: nat, depth: nat, fmt: bool): string
    requires i < |names| == |entries|
  {
    If(fmt, Tabs(depth)) + names[i] + ":" + If(fmt, "\t") + entries[i] + (if i != |names| - 1 then "," else "") + If(fmt, "\n")
  }

  /** The length that print_object adds up for its lines. */
  function ObjectRoom(names: seq<string>, entries: seq<string>, depth: nat, fmt: bool): nat
    requires |names| == |entries|
  {
    if names == [] then 0
    else |entries[0]| + |names[0]| + 2 + (if fmt then 2 + depth else 0) + ObjectRoom(names[1..], entries[1..], depth, fmt)
  }

  lemma {:induction false} LinesFit(names: seq<string>, entries: seq<string>, depth: nat, fmt: bool)
    requires |names| == |entries|
    ensures |Lines(names, entries, depth, fmt)| <= ObjectRoom(names, entries, depth, fmt)
  {
    if names != [] { LinesFit(names[1..], entries[1..], depth, fmt); }
  }

  lemma LinesSplit(names: seq<string>, entries: seq<string>, i: nat, depth: nat, fmt: bool)
    requires i < |names| == |entries|
    ensures Lines(names[i..], entries[i..], depth, fmt) == LineOf(names, entries, i, depth, fmt) + Lines(names[i + 1..], entries[i + 1..], depth, fmt)
  {
    assert names[i..][1..] == names[i + 1..] && entries[i..][1..] == entries[i + 1..];
  }

  method PutTabs(buf: array<char>, at: nat, n: nat) returns (end: nat)
    requires at + n <= buf.Length
    modifies buf
    ensures end == at + n && buf[..end] == old(buf[..at]) + Tabs(n)
  {
    end := at;
    while end < at + n
      invariant at <= end <= at + n && buf[..at] == old(buf[..at])
      invariant forall i | at <= i < end :: buf[i] == '\t'
    {
      buf[end] := '\t';
      end := end + 1;
    }
    assert buf[..end] == buf[..at] + buf[at..end];
    assert buf[at..end] == Tabs(n);
  }

  method PutLine(buf: array<char>, at: nat, names: seq<string>, entries: seq<string>, i: nat, depth: nat, fmt: bool) returns (end: nat)
    requires i < |names| == |entries| && at + |LineOf(names, entries, i, depth, fmt)| < buf.Length
    modifies buf
    ensures end == at + |LineOf(names, entries, i, depth, fmt)| && buf[..end] == old(buf[..at]) + LineOf(names, entries, i, depth, fmt)
  {
    hide Tabs, If;
    ghost var w := buf[..at];
    var sep := if i != |names| - 1 then "," else "";
    ghost var tabs := If(fmt, Tabs(depth));
    LineParts(w, tabs, names[i], ":", If(fmt, "\t"), entries[i], sep, If(fmt, "\n"));
    end := PutIndent(buf, at, depth, fmt);
    end := StrCpy(buf, end, names[i]);
    end := StrCpy(buf, end, ":");
    end := StrCpy(buf, end, If(fmt, "\t"));
    end := StrCpy(buf, end, entries[i]);
    end := StrCpy(buf, end, sep);
    end := StrCpy(buf, end, If(fmt, "\n"));
  }

  method PutIndent(buf: array<char>, at: nat, depth: nat, fmt: bool) returns (end: nat)
    requires at + |If(fmt, Tabs(depth))| < buf.Length
    modifies buf
    ensures end == at + |If(fmt, Tabs(depth))| && buf[..end] == old(buf[..at]) + If(fmt, Tabs(depth))
  {
    end := at;
    if fmt { end := PutTabs(buf, at, depth); } else { assert buf[..at] + "" == buf[..at]; }
  }

  lemma LineParts(w: string, a: string, b: string, c: string, d: string, e: string, f: string, g: string)
    ensures w + (a + b + c + d + e + f + g) == w + a + b + c + d + e + f + g
  {}

  /** The second half of print_object; `depth` is already one deeper. */
  method ComposeObject(names: seq<string>, entries: seq<string>, depth: nat, fmt: bool, len: nat) returns (out: string)
    requires |names| == |entries| && depth > 0
    requires len == 7 + (if fmt then depth else 0) + ObjectRoom(names, entries, depth, fmt)
    ensures out == "{" + If(fmt, "\n") + Lines(names, entries, depth, fmt) + If(fmt, Tabs(depth - 1)) + "}" && |out| + 1 <= len
  {
    hide Lines, ObjectRoom, LineOf, Tabs;
    LinesFit(names, entries, depth, fmt);
    var buf := new char[len];
    ghost var head := "{" + If(fmt, "\n");
    var ptr: nat := StrCpy(buf, 0, "{" + If(fmt, "\n"));
    var i := 0;
    assert names[0..] == names && entries[0..] == entries && buf[..ptr] == head;
    while i < |names|
      invariant i <= |names| && ptr <= len
      invariant buf[..ptr] + Lines(names[i..], entries[i..], depth, fmt) == head + Lines(names, entries, depth, fmt)
    {
      LinesSplit(names, entries, i, depth, fmt);
      ghost var written := buf[..ptr];
      ghost var after := Lines(names[i + 1..], entries[i + 1..], depth, fmt);
      assert written + (LineOf(names, entries, i, depth, fmt) + after) == written + LineOf(names, entries, i, depth, fmt) + after;
      ptr := PutLine(buf, ptr, names, entries, i, depth, fmt);
      i := i + 1;
    }
    LinesEnd(depth, fmt);
    assert names[i..] == [] && entries[i..] == [] && buf[..ptr] + "" == buf[..ptr];
    if fmt { ptr := PutTabs(buf, ptr, depth - 1); }
    ptr := StrCpy(buf, ptr, "}");
    out := buf[..ptr];
  }

  lemma LinesEnd(depth: nat, fmt: bool)
    ensures Lines([], [], depth, fmt) == ""
  {}

  // ---- the whole tree ----

  function Size(j: Json): nat {
    match j
    case Array(items) => 1 + ItemsSize(items)
    case Object(members) => 1 + MembersSize(members)
    case _ => 0
  }

  function ItemsSize(items: Items): nat {
    match items case NoItem => 0 case Item(v, next) => 1 + Size(v) + ItemsSize(next)
  }

  function MembersSize(members: Members): nat {
    match members case NoMember => 0 case Member(_, v, next) => 1 + Size(v) + MembersSize(next)
  }

  function ItemTexts(items: Items, depth: nat, fmt: bool): seq<string> {
    match items case NoItem => [] case Item(v, next) => [Print(v, depth, fmt)] + ItemTexts(next, depth, fmt)
  }

  function Names(members: Members): seq<string> {
    match members case NoMember => [] case Member(k, _, next) => [Quote(k)] + Names(next)
  }

  function MemberTexts(members: Members, depth: nat, fmt: bool): (texts: seq<string>)
    ensures |texts| == |Names(members)|
  {
    match members case NoMember => [] case Member(_, v, next) => [Print(v, depth, fmt)] + MemberTexts(next, depth, fmt)
  }

  lemma {:induction false} JoinedIsPrint(items: Items, depth: nat, fmt: bool)
    ensures Joined(ItemTexts(items, depth, fmt), fmt) == PrintItems(items, depth, fmt)
  {
    hide Print;
    if items.Item? {
      JoinedIsPrint(items.next, depth, fmt);
      assert ItemTexts(items, depth, fmt)[1..] == ItemTexts(items.next, depth, fmt);
    }
  }

  lemma {:induction false} LinesArePrint(members: Members, depth: nat, fmt: bool)
    ensures Lines(Names(members), MemberTexts(members, depth, fmt), depth, fmt) == PrintMembers(members, depth, fmt)
  {
    hide Print, Quote, Tabs;
    if members.Member? {
      LinesArePrint(members.next, depth, fmt);
      var names, texts := Names(members), MemberTexts(members, depth, fmt);
      assert names[1..] == Names(members.next) && texts[1..] == MemberTexts(members.next, depth, fmt);
      var line := Line(members.key, Print(members.member, depth, fmt), depth, fmt);
      if members.next.NoMember? {
        assert LineOf(names, texts, 0, depth, fmt) == line + If(fmt, "\n");
      } else {
        assert LineOf(names, texts, 0, depth, fmt) == line + "," + If(fmt, "\n");
      }
    }
  }

  lemma {:induction false} DigitCount(n: nat, w: nat)
    requires n < Pow10(w) && w > 0
    ensures |Digits(n)| <= w
  {
    if n >= 10 { DigitCount(n / 10, w - 1); }
  }

  /** The 21 bytes of print_number are enough for every int. */
  lemma NumberFits(n: int)
    requires INT_MIN <= n <= INT_MAX
    ensures |Decimal(n)| + 1 <= 21
  {
    assert Pow10(10) == 10000000000 by {
      assert Pow10(5) == 100000;
      assert Pow10(7) == 10 * Pow10(6) && Pow10(6) == 10 * Pow10(5);
      assert Pow10(10) == 10 * Pow10(9) && Pow10(9) == 10 * Pow10(8) && Pow10(8) == 10 * Pow10(7);
    }
    DigitCount(if n < 0 then -n else n, 10);
  }

  method PrintNumber(n: int) returns (out: string)
    requires INT_MIN <= n <= INT_MAX
    ensures out == Decimal(n)
  {
    NumberFits(n);
    var buf := new char[21];
    var ptr: nat := StrCpy(buf, 0, Decimal(n));
    out := buf[..ptr];
  }

  method PrintValue(j: Json, depth: nat, fmt: bool) returns (out: string)
    requires Printable(j)
    ensures out == Print(j, depth, fmt)
    decreases Size(j), 1
  {
    match j {
      case Null => out := "null";
      case False => out := "false";
      case True => out := "true";
      case Number(n) => out := PrintNumber(n);
      case String(s) => out := PrintString(s);
      case Array(items) => out := PrintArray(items, depth, fmt);
      case Object(members) => out := PrintObject(members, depth, fmt);
    }
  }

  method PrintArray(items: Items, depth: nat, fmt: bool) returns (out: string)
    requires PrintableItems(items)
    ensures out == Print(Array(items), depth, fmt)
    decreases 1 + ItemsSize(items), 0
  {
    hide Print, Joined;
    if items.NoItem? {
      EmptyArray(depth, fmt);
      return "[]";
    }
    var entries: seq<string>, len: nat, child := [], 5, items;
    ghost var all := ItemTexts(items, depth + 1, fmt);
    while child.Item?
      invariant PrintableItems(child) && ItemsSize(child) <= ItemsSize(items)
      invariant entries + ItemTexts(child, depth + 1, fmt) == all && len == 5 + ArrayRoom(entries, fmt)
      decreases ItemsSize(child)
    {
      var ret := PrintValue(child.value, depth + 1, fmt);
      RoomGrows(entries, ret, fmt);
      entries := entries + [ret];
      len := len + |ret| + 2 + (if fmt then 1 else 0);
      child := child.next;
    }
    assert entries == all;
    out := ComposeArray(entries, fmt, len);
    JoinedIsPrint(items, depth + 1, fmt);
    ArrayText(items, depth, fmt);
  }

  lemma EmptyArray(depth: nat, fmt: bool)
    ensures Print(Array(NoItem), depth, fmt) == "[]"
  {}

  lemma ArrayText(items: Items, depth: nat, fmt: bool)
    ensures Print(Array(items), depth, fmt) == "[" + PrintItems(items, depth + 1, fmt) + "]"
  {}

  lemma {:induction false} RoomGrows(entries: seq<string>, e: string, fmt: bool)
    ensures ArrayRoom(entries + [e], fmt) == ArrayRoom(entries, fmt) + |e| + 2 + if fmt then 1 else 0
  {
    if entries == [] {
      assert entries + [e] == [e];
    } else {
      RoomGrows(entries[1..], e, fmt);
      assert (entries + [e])[1..] == entries[1..] + [e];
    }
  }

  method PrintObject(members: Members, depth: nat, fmt: bool) returns (out: string)
    requires PrintableMembers(members)
    ensures out == Print(Object(members), depth, fmt)
    decreases 1 + MembersSize(members), 0
  {
    hide Print, Lines, Tabs, LineOf, Quote;
    if members.NoMember? {
      out := PrintEmptyObject(depth, fmt);
      return;
    }
    var names, entries, len := PrintMemberTexts(members, depth + 1, fmt);
    out := ComposeObject(names, entries, depth + 1, fmt, len);
    LinesArePrint(members, depth + 1, fmt);
    ObjectText(members, depth, fmt);
  }

  /** The first half of print_object: print every name and value and add up the length. */
  method PrintMemberTexts(members: Members, depth: nat, fmt: bool) returns (names: seq<string>, entries: seq<string>, len: nat)
    requires PrintableMembers(members)
    ensures names == Names(members) && entries == MemberTexts(members, depth, fmt)
    ensures len == 7 + (if fmt then depth else 0) + ObjectRoom(names, entries, depth, fmt)
    decreases MembersSize(members), 2
  {
    hide Print, Quote, ObjectRoom;
    names, entries, len := [], [], 7;
    if fmt { len := len + depth; }
    var child := members;
    NoRoom(depth, fmt);
    while child.Member?
      invariant PrintableMembers(child) && MembersSize(child) <= MembersSize(members) && |names| == |entries|
      invariant names + Names(child) == Names(members)
      invariant entries + MemberTexts(child, depth, fmt) == MemberTexts(members, depth, fmt)
      invariant len == 7 + (if fmt then depth else 0) + ObjectRoom(names, entries, depth, fmt)
      decreases MembersSize(child)
    {
      var str := PrintString(child.key);
      var ret := PrintValue(child.member, depth, fmt);
      ObjectRoomGrows(names, entries, str, ret, depth, fmt);
      ReassociateTexts(names, str, Names(child.next));
      ReassociateTexts(entries, ret, MemberTexts(child.next, depth, fmt));
      names := names + [str];
      entries := entries + [ret];
      len := len + |ret| + |str| + 2 + (if fmt then 2 + depth else 0);
      child := child.next;
    }
  }

  lemma NoRoom(depth: nat, fmt: bool)
    ensures ObjectRoom([], [], depth, fmt) == 0
  {}

  lemma ReassociateTexts(a: seq<string>, b: string, c: seq<string>)
    ensures a + ([b] + c) == a + [b] + c
  {}

  method PrintEmptyObject(depth: nat, fmt: bool) returns (out: string)
    ensures out == Print(Object(NoMember), depth, fmt)
  {
    hide Tabs;
    var buf := new char[if fmt then depth + 4 else 3];
    var ptr: nat := StrCpy(buf, 0, "{" + If(fmt, "\n"));
    if fmt && depth > 0 { ptr := PutTabs(buf, ptr, depth - 1); }
    if depth == 0 { NoTabs(); }
    ptr := StrCpy(buf, ptr, "}");
    out := buf[..ptr];
  }

  lemma NoTabs()
    ensures Tabs(-1) == ""
  {}

  lemma ObjectText(members: Members, depth: nat, fmt: bool)
    requires members.Member?
    ensures Print(Object(members), depth, fmt) == "{" + If(fmt, "\n") + PrintMembers(members, depth + 1, fmt) + If(fmt, Tabs(depth)) + "}"
  {}

  lemma {:induction false} ObjectRoomGrows(names: seq<string>, entries: seq<string>, n: string, e: string, depth: nat, fmt: bool)
    requires |names| == |entries|
    ensures ObjectRoom(names + [n], entries + [e], depth, fmt)
            == ObjectRoom(names, entries, depth, fmt) + |e| + |n| + 2 + if fmt then 2 + depth else 0
  {
    if names == [] {
      assert names + [n] == [n] && entries + [e] == [e];
    } else {
      ObjectRoomGrows(names[1..], entries[1..], n, e, depth, fmt);
      assert (names + [n])[1..] == names[1..] + [n] && (entries + [e])[1..] == entries[1..] + [e];
    }
  }
}
