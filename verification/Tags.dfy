/**
 The two tag logs of a queue. Each operation appends one line of zero-padded
 fields; reopening looks for the last readable line, scanning backwards.
 A read tag holds (get count, read position), a write tag holds
 (put count, write position, queue limit).
 */
module Tags {
  import opened Bytes
  import opened Text

  /** The widths of the fields of one line. */
  type Layout = widths: seq<nat> | |widths| >= 2 && widths[0] == 20 && (forall i | 1 <= i < |widths| :: widths[i] == 10)
    witness [20, 10]

  const RTAG: Layout := [20, 10]
  const WTAG: Layout := [20, 10, 10]

  /** The length of a line without its newline. */
  function ItemLen(widths: seq<nat>): nat {
    if widths == [] then 0 else widths[0] + ItemLen(widths[1..])
  }

  /** The first field is a 64-bit counter, the others are 32-bit numbers. */
  function Modulus(width: nat): (m: nat)
    ensures m > 0
  {
    if width == 20 then U64 else U32
  }

  predicate Fits(vals: seq<nat>, widths: seq<nat>) {
    |vals| == |widths| && forall i | 0 <= i < |vals| :: vals[i] < Modulus(widths[i])
  }

  function Fields(vals: seq<nat>, widths: seq<nat>): (s: string)
    requires |vals| == |widths|
    ensures |s| == ItemLen(widths)
    ensures forall i | 0 <= i < |s| :: IsDigit(s[i])
  {
    if vals == [] then "" else Pad(vals[0], widths[0]) + Fields(vals[1..], widths[1..])
  }

  function Line(vals: seq<nat>, widths: seq<nat>): (s: string)
    requires |vals| == |widths|
    ensures |s| == ItemLen(widths) + 1
  {
    Fields(vals, widths) + "\n"
  }

  /** str_to_num: digits only, the accumulated number wraps at 64 bits. */
  function StrToNum(s: string): Option<nat> {
    if |s| > 0 && AllDigits(s) then Some(Value(s) % U64) else None
  }

  method ReadNumber(s: string) returns (num: Option<nat>)
    ensures num == StrToNum(s)
  {
    if |s| == 0 { return None; }
    var n := 0;
    var i := 0;
    while i < |s|
      invariant 0 <= i <= |s|
      invariant AllDigits(s[..i]) && n == Value(s[..i]) % U64
    {
      if !IsDigit(s[i]) { return None; }
      assert s[..i + 1][..i] == s[..i];
      assert AllDigits(s[..i + 1]);
      WrapStep(Value(s[..i]), s[i] as int - '0' as int);
      n := (n * 10 + (s[i] as int - '0' as int)) % U64;
      i := i + 1;
    }
    assert s[..i] == s;
    num := Some(n);
  }

  lemma WrapStep(v: nat, d: nat)
    ensures ((v % U64) * 10 + d) % U64 == (v * 10 + d) % U64
  {
    assert v == U64 * (v / U64) + v % U64;
    assert v * 10 + d == U64 * (10 * (v / U64)) + ((v % U64) * 10 + d);
    ModPlusMultiple((v % U64) * 10 + d, 10 * (v / U64));
  }

  lemma {:induction false} ModPlusMultiple(a: nat, k: nat)
    ensures (U64 * k + a) % U64 == a % U64
  {
    if k > 0 { ModPlusMultiple(a, k - 1); }
  }

  datatype Parsed = Parsed(vals: seq<nat>, ok: bool)

  /** Assigns the fields of `token` from field `i` on; stops at the first one that is not a number. */
  function ParseFields(token: string, widths: Layout, vals: seq<nat>, i: nat): (r: Parsed)
    requires i <= |widths| && |vals| == |widths|
    requires |token| >= ItemLen(widths[i..])
    ensures |r.vals| == |vals|
    decreases |widths| - i
  {
    if i == |widths| then Parsed(vals, true)
    else
      var w := widths[i];
      assert widths[i..][0] == w && widths[i..][1..] == widths[i + 1..];
      match StrToNum(token[..w])
      case None => Parsed(vals, false)
      case Some(n) => ParseFields(token[w..], widths, vals[i := n % Modulus(w)], i + 1)
  }

  /** The strtok loop over one buffer: the first long enough token decides unless its position is out of range. */
  function ParseTokens(text: string, widths: Layout, vals: seq<nat>, max: nat): (r: Parsed)
    requires |vals| == |widths|
    ensures |r.vals| == |vals|
    decreases |text|
  {
    if text == "" then Parsed(vals, false)
    else if text[0] == '\n' then ParseTokens(text[1..], widths, vals, max)
    else
      var token := UpTo(text, '\n');
      var rest := text[|token|..];
      assert |token| > 0;
      if |token| < ItemLen(widths) then ParseTokens(rest, widths, vals, max)
      else
        assert widths[0..] == widths;
        var r := ParseFields(token, widths, vals, 0);
        if !r.ok || r.vals[1] <= max then r
        else ParseTokens(rest, widths, r.vals, max)
  }

  datatype Scan = Found(back: nat, vals: seq<nat>) | NotFound(vals: seq<nat>)

  /** The backward scan: probe number `back` reads at `offset`, a line's length before the previous one. */
  function ScanFrom(log: string, widths: Layout, vals: seq<nat>, max: nat, back: nat, offset: int): (r: Scan)
    requires |vals| == |widths| && offset <= |log|
    ensures |r.vals| == |vals|
    decreases if offset < 0 then 0 else offset + 1
  {
    if offset < 0 then NotFound(vals)
    else
      var n := ItemLen(widths) + 1;
      var r := ParseTokens(Chunk(log, n, offset), widths, vals, max);
      if r.ok then Found(back, r.vals)
      else ScanFrom(log, widths, r.vals, max, back + 1, offset - n)
  }

  function ScanBack(log: string, widths: Layout, vals: seq<nat>, max: nat): (r: Scan)
    requires |vals| == |widths|
    ensures |r.vals| == |vals|
  {
    ScanFrom(log, widths, vals, max, 1, |log| - (ItemLen(widths) + 1))
  }

  /** What one read leaves in the line buffer, as a C string. */
  function Chunk(log: string, n: nat, offset: nat): string
    requires offset <= |log|
  {
    var end := if offset + 2 * n <= |log| then offset + 2 * n else |log|;
    UpTo(log[offset..end], '\0')
  }

  /** The token loop of parse_rtag_item and parse_wtag_item. */
  method ParseItem(text: string, widths: Layout, vals0: seq<nat>, max: nat) returns (r: Parsed)
    requires |vals0| == |widths|
    ensures r == ParseTokens(text, widths, vals0, max)
  {
    var vals, rest := vals0, text;
    while rest != ""
      invariant |vals| == |widths|
      invariant ParseTokens(rest, widths, vals, max) == ParseTokens(text, widths, vals0, max)
      decreases |rest|
    {
      if rest[0] == '\n' {
        rest := rest[1..];
        continue;
      }
      var token := UpTo(rest, '\n');
      if |token| >= ItemLen(widths) {
        assert widths[0..] == widths;
        var p := ParseFields(token, widths, vals, 0);
        if !p.ok || p.vals[1] <= max { return p; }
        vals := p.vals;
      }
      assert |token| > 0;
      rest := rest[|token|..];
    }
    r := Parsed(vals, false);
  }

  /** The seek-and-read loop of mq_sm_rtag_read_item and mq_sm_wtag_read_item. */
  method ReadItem(log: string, widths: Layout, vals0: seq<nat>, max: nat) returns (scan: Scan)
    requires |vals0| == |widths|
    ensures scan == ScanBack(log, widths, vals0, max)
  {
    hide ParseTokens, Chunk;
    var n := ItemLen(widths) + 1;
    var vals, back, offset := vals0, 1, |log| - n;
    while offset >= 0
      invariant |vals| == |widths| && offset <= |log|
      invariant ScanFrom(log, widths, vals, max, back, offset) == ScanBack(log, widths, vals0, max)
      decreases offset
    {
      var r := ParseItem(Chunk(log, n, offset), widths, vals, max);
      if r.ok { return Found(back, r.vals); }
      vals, back, offset := r.vals, back + 1, offset - n;
    }
    scan := NotFound(vals);
  }

  // ---- what the scan recovers ----

  lemma ModulusBelowPow10(w: nat)
    requires w == 20 || w == 10
    ensures Modulus(w) <= Pow10(w) && Modulus(w) <= U64
  {
    assert Pow10(5) == 100000;
    assert Pow10(10) == 10_000_000_000;
    assert Pow10(15) == 1_000_000_000_000_000;
    assert Pow10(20) == 100_000_000_000_000_000_000;
  }

  lemma FieldParses(v: nat, w: nat)
    requires (w == 20 || w == 10) && v < Modulus(w)
    ensures StrToNum(Pad(v, w)) == Some(v)
  {
    hide Pow10, Modulus, Value, Pad;
    ModulusBelowPow10(w);
    ValueOfPad(v, w);
  }

  lemma {:induction false} FieldsParse(vals: seq<nat>, widths: Layout, cur: seq<nat>, i: nat)
    requires |vals| == |widths| && Fits(vals, widths) && |cur| == |vals| && i <= |vals|
    ensures ParseFields(Fields(vals[i..], widths[i..]), widths, cur, i) == Parsed(cur[..i] + vals[i..], true)
    decreases |vals| - i
  {
    hide StrToNum, Pad, ItemLen, Fits, Modulus;
    if i == |vals| {
      assert cur[..i] + vals[i..] == cur;
    } else {
      var w := widths[i];
      assert vals[i..][0] == vals[i] && vals[i..][1..] == vals[i + 1..];
      assert widths[i..][0] == w && widths[i..][1..] == widths[i + 1..];
      var token := Fields(vals[i..], widths[i..]);
      assert token[..w] == Pad(vals[i], w) && token[w..] == Fields(vals[i + 1..], widths[i + 1..]);
      FieldInRange(vals, widths, i);
      FieldParses(vals[i], w);
      var next := cur[i := vals[i]];
      FieldsParse(vals, widths, next, i + 1);
      assert next[..i + 1] + vals[i + 1..] == cur[..i] + vals[i..];
    }
  }

  lemma FieldInRange(vals: seq<nat>, widths: Layout, i: nat)
    requires Fits(vals, widths) && i < |vals|
    ensures (widths[i] == 20 || widths[i] == 10) && vals[i] < Modulus(widths[i]) && vals[i] % Modulus(widths[i]) == vals[i]
  {}

  /** A text shorter than an item holds no item. */
  lemma {:induction false} ShortText(text: string, widths: Layout, vals: seq<nat>, max: nat)
    requires |vals| == |widths| && |text| < ItemLen(widths)
    ensures ParseTokens(text, widths, vals, max) == Parsed(vals, false)
    decreases |text|
  {
    if text == "" {
    } else if text[0] == '\n' {
      ShortText(text[1..], widths, vals, max);
    } else {
      var token := UpTo(text, '\n');
      assert |token| > 0;
      ShortText(text[|token|..], widths, vals, max);
    }
  }

  lemma TokenOf(a: string, b: string)
    requires '\n' !in a
    ensures UpTo(a + "\n" + b, '\n') == a
    ensures (a + "\n" + b)[|a|..] == "\n" + b && ("\n" + b)[1..] == b
  {
    assert a + "\n" + b == a + ("\n" + b);
    UpToConcat(a, '\n', "\n" + b);
  }

  /** A fragment of a line in front of a newline is passed over. */
  lemma FragmentSkipped(a: string, b: string, widths: Layout, vals: seq<nat>, max: nat)
    requires |vals| == |widths| && |a| < ItemLen(widths) && '\n' !in a
    ensures ParseTokens(a + "\n" + b, widths, vals, max) == ParseTokens(b, widths, vals, max)
  {
    TokenOf(a, b);
    if a == "" {
      assert a + "\n" + b == "\n" + b;
    } else {
      assert (a + "\n" + b)[0] == a[0];
    }
  }

  lemma {:induction false} FieldsAreDigits(vals: seq<nat>, widths: seq<nat>)
    requires |vals| == |widths|
    ensures '\n' !in Fields(vals, widths) && '\0' !in Fields(vals, widths)
  {
    var s := Fields(vals, widths);
    assert forall i | 0 <= i < |s| :: IsDigit(s[i]);
  }

  lemma ItemLenAtLeast(widths: Layout)
    ensures ItemLen(widths) >= 30
  {
    assert widths[1..][0] == widths[1];
  }

  /** A complete line in front is the one that is recovered. */
  lemma LineParses(v: seq<nat>, b: string, widths: Layout, vals: seq<nat>, max: nat)
    requires Fits(v, widths) && |vals| == |v| && v[1] <= max
    ensures ParseTokens(Line(v, widths) + b, widths, vals, max) == Parsed(v, true)
  {
    var a := Fields(v, widths);
    FieldsAreDigits(v, widths);
    ItemLenAtLeast(widths);
    assert Line(v, widths) + b == a + "\n" + b;
    TokenOf(a, b);
    assert (a + "\n" + b)[0] == a[0];
    assert v[0..] == v && widths[0..] == widths;
    FieldsParse(v, widths, vals, 0);
    assert vals[..0] + v[0..] == v;
  }

  lemma ChunkOf(log: string, n: nat, offset: nat, a: string, b: string)
    requires offset <= |log| && log[offset..] == a + b && |a| + |b| <= 2 * n
    requires '\0' !in a
    ensures Chunk(log, n, offset) == a + UpTo(b, '\0')
  {
    hide UpTo;
    assert |log| == offset + |a| + |b|;
    assert log[offset..|log|] == a + b;
    UpToConcat(a, '\0', b);
  }

  /** With no torn tail the last line is recovered at once. */
  lemma CleanTailRecovered(pre: string, v: seq<nat>, widths: Layout, vals: seq<nat>, max: nat)
    requires Fits(v, widths) && |vals| == |v| && v[1] <= max
    ensures ScanBack(pre + Line(v, widths), widths, vals, max) == Found(1, v)
  {
    var n := ItemLen(widths) + 1;
    var log := pre + Line(v, widths);
    FieldsAreDigits(v, widths);
    assert log[|log| - n..] == Line(v, widths) + "";
    ChunkOf(log, n, |log| - n, Line(v, widths), "");
    LineParses(v, "", widths, vals, max);
  }

  /** The first probe of a torn log sees the rest of a complete line and the torn bytes, and finds nothing. */
  lemma TornProbeFails(pre: string, v: seq<nat>, torn: string, widths: Layout, vals: seq<nat>, max: nat)
    requires |v| == |widths| && |vals| == |v| && 1 <= |torn| < ItemLen(widths)
    ensures var n := ItemLen(widths) + 1; var log := pre + Line(v, widths) + torn;
            ParseTokens(Chunk(log, n, |log| - n), widths, vals, max) == Parsed(vals, false)
  {
    hide ParseTokens, UpTo;
    var n := ItemLen(widths) + 1;
    var log := pre + Line(v, widths) + torn;
    FieldsAreDigits(v, widths);
    var a := Fields(v, widths)[|torn|..];
    assert log[|log| - n..] == (a + "\n") + torn;
    ChunkOf(log, n, |log| - n, a + "\n", torn);
    FragmentSkipped(a, UpTo(torn, '\0'), widths, vals, max);
    ShortText(UpTo(torn, '\0'), widths, vals, max);
  }

  /** The second probe sees the rest of a line, a complete line and the torn bytes, and finds the complete line. */
  lemma TornSecondProbe(pre: string, u: seq<nat>, v: seq<nat>, torn: string, widths: Layout, vals: seq<nat>, max: nat)
    requires |u| == |widths| && Fits(v, widths) && |vals| == |v| && 1 <= |torn| < ItemLen(widths) && v[1] <= max
    ensures var n := ItemLen(widths) + 1; var log := pre + Line(u, widths) + Line(v, widths) + torn;
            ParseTokens(Chunk(log, n, |log| - 2 * n), widths, vals, max) == Parsed(v, true)
  {
    hide ParseTokens, UpTo, ItemLen;
    var n := ItemLen(widths) + 1;
    var log := pre + Line(u, widths) + Line(v, widths) + torn;
    FieldsAreDigits(u, widths);
    FieldsAreDigits(v, widths);
    var a := Fields(u, widths)[|torn|..];
    var rest := Line(v, widths) + UpTo(torn, '\0');
    assert log[|log| - 2 * n..] == (a + "\n" + Line(v, widths)) + torn;
    ChunkOf(log, n, |log| - 2 * n, a + "\n" + Line(v, widths), torn);
    assert a + "\n" + Line(v, widths) + UpTo(torn, '\0') == a + "\n" + rest;
    FragmentSkipped(a, rest, widths, vals, max);
    LineParses(v, UpTo(torn, '\0'), widths, vals, max);
  }

  /** A torn last line costs one step back: the last complete line is recovered. */
  lemma TornTailRecovered(pre: string, u: seq<nat>, v: seq<nat>, torn: string, widths: Layout, vals: seq<nat>, max: nat)
    requires |u| == |widths| && Fits(v, widths) && |vals| == |v| && v[1] <= max
    requires 1 <= |torn| < ItemLen(widths)
    ensures ScanBack(pre + Line(u, widths) + Line(v, widths) + torn, widths, vals, max) == Found(2, v)
  {
    hide ParseTokens, Chunk, Line, ItemLen;
    TornProbeFails(pre + Line(u, widths), v, torn, widths, vals, max);
    TornSecondProbe(pre, u, v, torn, widths, vals, max);
    var n, log := ItemLen(widths) + 1, pre + Line(u, widths) + Line(v, widths) + torn;
    assert ScanFrom(log, widths, vals, max, 2, |log| - 2 * n) == Found(2, v);
  }

  /** With a single complete line before the torn one, the scan runs off the start of the log. */
  lemma LoneTornLineLost(v: seq<nat>, torn: string, widths: Layout, vals: seq<nat>, max: nat)
    requires |v| == |widths| && |vals| == |v| && 1 <= |torn| < ItemLen(widths)
    ensures ScanBack(Line(v, widths) + torn, widths, vals, max) == NotFound(vals)
  {
    hide ParseTokens, Chunk, Line, ItemLen;
    assert "" + Line(v, widths) == Line(v, widths);
    TornProbeFails("", v, torn, widths, vals, max);
    var n, log := ItemLen(widths) + 1, Line(v, widths) + torn;
    assert ScanFrom(log, widths, vals, max, 2, |log| - 2 * n) == NotFound(vals);
  }
}
