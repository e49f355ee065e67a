/** cJSON trees: the recursive-descent parser, the two print modes, and the round trip. */
module Json {
  import opened Text
  import opened JsonString

  /** A node; the children of an array or object form a chain of `next` links. */
  datatype Json = Null | False | True | Number(n: int) | String(s: string) | Array(items: Items) | Object(members: Members)
  datatype Items = NoItem | Item(value: Json, next: Items)
  datatype Members = NoMember | Member(key: string, member: Json, next: Members)

  const INT_MIN: int := -0x8000_0000
  const INT_MAX: int := 0x7FFF_FFFF

  /** The trees whose numbers are ints and whose strings are C strings. */
  predicate Printable(j: Json) {
    match j
    case Number(n) => INT_MIN <= n <= INT_MAX
    case String(s) => NoNul(s)
    case Array(items) => PrintableItems(items)
    case Object(members) => PrintableMembers(members)
    case _ => true
  }

  predicate PrintableItems(items: Items) {
    items.Item? ==> Printable(items.value) && PrintableItems(items.next)
  }

  predicate PrintableMembers(members: Members) {
    members.Member? ==> NoNul(members.key) && Printable(members.member) && PrintableMembers(members.next)
  }

  // ---- printing ----

  function Tabs(n: int): (s: string)
    ensures |s| == if n < 0 then 0 else n
    ensures forall i | 0 <= i < |s| :: s[i] == '\t'
  {
    if n <= 0 then "" else "\t" + Tabs(n - 1)
  }

  function If(fmt: bool, s: string): string {
    if fmt then s else ""
  }

  /** print_value; `fmt` chooses between cJSON_Print and cJSON_PrintUnformatted. */
  function Print(j: Json, depth: nat, fmt: bool): string {
    match j
    case Null => "null"
    case False => "false"
    case True => "true"
    case Number(n) => Decimal(n)
    case String(s) => Quote(s)
    case Array(items) => "[" + PrintItems(items, depth + 1, fmt) + "]"
    case Object(members) =>
      if members.NoMember? then "{" + If(fmt, "\n" + Tabs(depth - 1)) + "}"
      else "{" + If(fmt, "\n") + PrintMembers(members, depth + 1, fmt) + If(fmt, Tabs(depth)) + "}"
  }

  function PrintItems(items: Items, depth: nat, fmt: bool): string {
    match items
    case NoItem => ""
    case Item(v, NoItem) => Print(v, depth, fmt)
    case Item(v, next) => Print(v, depth, fmt) + "," + If(fmt, " ") + PrintItems(next, depth, fmt)
  }

  /** One line of an object without its comma. */
  function Line(key: string, text: string, depth: nat, fmt: bool): string {
    If(fmt, Tabs(depth)) + Quote(key) + ":" + If(fmt, "\t") + text
  }

  function PrintMembers(members: Members, depth: nat, fmt: bool): string {
    match members
    case NoMember => ""
    case Member(k, v, NoMember) => Line(k, Print(v, depth, fmt), depth, fmt) + If(fmt, "\n")
    case Member(k, v, next) => Line(k, Print(v, depth, fmt), depth, fmt) + "," + If(fmt, "\n") + PrintMembers(next, depth, fmt)
  }

  // ---- parsing ----

  predicate Blank(c: char) {
    c <= ' '
  }

  /** skip: over everything up to and including the space character. */
  function Skip(t: string): (r: string)
    ensures |r| <= |t|
  {
    if t != "" && Blank(t[0]) then Skip(t[1..]) else t
  }

  /** The digits a number starts with. */
  function DigitRun(t: string): (n: nat)
    ensures n <= |t| && AllDigits(t[..n]) && (n < |t| ==> !IsDigit(t[n]))
  {
    if t == "" || !IsDigit(t[0]) then 0
    else
      assert t[..1 + DigitRun(t[1..])] == [t[0]] + t[1..][..DigitRun(t[1..])];
      1 + DigitRun(t[1..])
  }

  /** parse_number on its integer part; a fraction or an exponent leaves the model. */
  function ParseNumber(t: string): (p: Parse<Json>)
    ensures p.Done? ==> |p.rest| <= |t|
  {
    var neg := At(t, 0) == '-';
    var u := if neg then t[1..] else t;
    var v := if At(u, 0) == '0' then u[1..] else u;
    var d := if '1' <= At(v, 0) <= '9' then DigitRun(v) else 0;
    var n := if neg then -(Value(v[..d]) as int) else Value(v[..d]);
    var rest := v[d..];
    if (At(rest, 0) == '.' && IsDigit(At(rest, 1))) || At(rest, 0) == 'e' || At(rest, 0) == 'E' || !(INT_MIN <= n <= INT_MAX)
    then Stop(OtherNumber)
    else Done(Number(n), rest)
  }

  predicate StartsNumber(c: char) {
    c == '-' || IsDigit(c)
  }

  /** parse_value on the text at the cursor. */
  function ParseValue(t: string): (p: Parse<Json>)
    ensures p.Done? ==> |p.rest| < |t|
    decreases |t|, 2
  {
    if "null" <= t then Done(Null, t[4..])
    else if "false" <= t then Done(False, t[5..])
    else if "true" <= t then Done(True, t[4..])
    else
      match At(t, 0)
      case '"' => (match Literal(t) case Done(s, rest) => Done(String(s), rest) case Stop(w) => Stop(w))
      case '[' =>
        var u := Skip(t[1..]);
        if At(u, 0) == ']' then Done(Array(NoItem), u[1..])
        else (match ParseItems(u) case Done(items, rest) => Done(Array(items), rest) case Stop(w) => Stop(w))
      case '{' =>
        var u := Skip(t[1..]);
        if At(u, 0) == '}' then Done(Object(NoMember), u[1..])
        else (match ParseMembers(u) case Done(members, rest) => Done(Object(members), rest) case Stop(w) => Stop(w))
      case c =>
        if !StartsNumber(c) then Stop(Malformed)
        else
          ParseNumberMoves(t);
          ParseNumber(t)
  }

  lemma ParseNumberMoves(t: string)
    requires StartsNumber(At(t, 0))
    ensures var p := ParseNumber(t); p.Done? ==> |p.rest| < |t|
  {}

  /** The loop of parse_array: a value, then a comma and more, or the closing bracket. */
  function ParseItems(t: string): (p: Parse<Items>)
    ensures p.Done? ==> |p.rest| < |t| && p.value.Item?
    decreases |t|, 3
  {
    match ParseValue(Skip(t))
    case Stop(w) => Stop(w)
    case Done(v, rest) =>
      var u := Skip(rest);
      if At(u, 0) == ',' then (match ParseItems(u[1..]) case Done(more, end) => Done(Item(v, more), end) case Stop(w) => Stop(w))
      else if At(u, 0) == ']' then Done(Item(v, NoItem), u[1..])
      else Stop(Malformed)
  }

  /** The loop of parse_object. */
  function ParseMembers(t: string): (p: Parse<Members>)
    ensures p.Done? ==> |p.rest| < |t| && p.value.Member?
    decreases |t|, 3
  {
    match Literal(Skip(t))
    case Stop(w) => Stop(w)
    case Done(k, rest) =>
      var u := Skip(rest);
      if At(u, 0) != ':' then Stop(Malformed)
      else
        match ParseValue(Skip(u[1..]))
        case Stop(w) => Stop(w)
        case Done(v, after) =>
          var x := Skip(after);
          if At(x, 0) == ',' then (match ParseMembers(x[1..]) case Done(more, end) => Done(Member(k, v, more), end) case Stop(w) => Stop(w))
          else if At(x, 0) == '}' then Done(Member(k, v, NoMember), x[1..])
          else Stop(Malformed)
  }

  /** cJSON_ParseWithOpts; `whole` asks for nothing but blanks after the value. */
  function ParseText(t: string, whole: bool): Parse<Json> {
    match ParseValue(Skip(t))
    case Stop(w) => Stop(w)
    case Done(j, rest) => if !whole then Done(j, rest) else if Skip(rest) == "" then Done(j, "") else Stop(Malformed)
  }
}
