/** What the reader reads does not depend on how its input was cut, and reading undoes writing. */
module RespLaws {
  import opened Bytes
  import opened Text
  import opened Resp

  // ---- more input never changes a step that was possible ----

  lemma {:induction false} CrlfStays(a: string, b: string)
    requires FindCrlf(a).Some?
    ensures FindCrlf(a + b) == FindCrlf(a)
  {
    if !(a[0] == '\r' && a[1] == '\n') {
      assert (a + b)[1..] == a[1..] + b;
      CrlfStays(a[1..], b);
    }
  }

  lemma {:induction false} UpToStays(a: string, b: string, c: char)
    requires c in a
    ensures UpTo(a + b, c) == UpTo(a, c)
  {
    if a[0] != c {
      assert (a + b)[1..] == a[1..] + b;
      UpToStays(a[1..], b, c);
    }
  }

  lemma LongLongStays(a: string, b: string)
    requires FindCrlf(a).Some?
    ensures LongLong(a + b) == LongLong(a)
  {
    hide FindCrlf, UpTo;
    var p := FindCrlf(a).value;
    assert a[p] == '\r';
    if a[0] == '-' || a[0] == '+' {
      assert a[1..][p - 1] == '\r';
      assert (a + b)[1..] == a[1..] + b;
      UpToStays(a[1..], b, '\r');
    } else {
      UpToStays(a, b, '\r');
    }
  }

  lemma BulkStays(stack: seq<Task>, a: string, b: string)
    requires GoodStack(stack) && !ReadBulk(stack, a).Stuck?
    ensures ReadBulk(stack, a + b) == ReadBulk(stack, a)
  {
    hide FindCrlf, LongLong, Done;
    CrlfStays(a, b);
    LongLongStays(a, b);
    var p, len := FindCrlf(a).value, LongLong(a);
    if len >= 0 {
      assert (a + b)[p + 2..p + 2 + len] == a[p + 2..p + 2 + len];
    }
  }

  lemma LineStays(kind: Kind, a: string, b: string)
    requires FindCrlf(a).Some?
    ensures LineValue(kind, a + b) == LineValue(kind, a)
  {
    hide FindCrlf, LongLong;
    CrlfStays(a, b);
    LongLongStays(a, b);
    assert (a + b)[..FindCrlf(a).value] == a[..FindCrlf(a).value];
  }

  lemma StepStays(stack: seq<Task>, a: string, b: string)
    requires GoodStack(stack) && !Step(stack, a).Stuck?
    ensures Step(stack, a + b) == Step(stack, a)
  {
    hide FindCrlf, LongLong, Done, OpenArray, ReadBulk, LineValue;
    match stack[|stack| - 1].kind
    case None =>
      assert (a + b)[0] == a[0];
    case Some(ArrayKind) =>
      if |stack| < DEPTH {
        CrlfStays(a, b);
        LongLongStays(a, b);
      }
    case Some(StringKind) =>
      BulkStays(stack, a, b);
    case Some(kind) =>
      CrlfStays(a, b);
      LineStays(kind, a, b);
  }

  /** Reading on with more input. */
  function Continue(o: Outcome, more: string): Outcome
    requires GoodStack(o.stack)
  {
    if o.fault.Some? then o
    else
      var o' := Run(o.stack, o.rest + more);
      o'.(replies := o.replies + o'.replies)
  }

  /** Feeding in two parts is feeding at once. */
  lemma {:induction false} RunSplits(stack: seq<Task>, a: string, b: string)
    requires GoodStack(stack)
    ensures Run(stack, a + b) == Continue(Run(stack, a), b)
    decreases |a|
  {
    hide Step, GoodStack;
    match Step(stack, a)
    case Stuck =>
    case Fail(f) =>
      StepStays(stack, a, b);
    case Go(next, used, emit) =>
      StepStays(stack, a, b);
      assert (a + b)[used..] == a[used..] + b;
      RunSplits(next, a[used..], b);
  }

  function Concat(chunks: seq<string>): string {
    if chunks == [] then "" else Concat(chunks[..|chunks| - 1]) + chunks[|chunks| - 1]
  }

  /** Feeding chunk after chunk, draining the replies after each. */
  function RunAll(chunks: seq<string>): (o: Outcome)
    ensures GoodStack(o.stack)
  {
    if chunks == [] then Outcome([], [ROOT], "", None)
    else Continue(RunAll(chunks[..|chunks| - 1]), chunks[|chunks| - 1])
  }

  /** However the bytes are cut, the replies, the state and the error are those of the whole stream. */
  lemma {:induction false} CutsDoNotMatter(chunks: seq<string>)
    ensures RunAll(chunks) == Run([ROOT], Concat(chunks))
  {
    if chunks != [] {
      var front, last := chunks[..|chunks| - 1], chunks[|chunks| - 1];
      CutsDoNotMatter(front);
      RunSplits([ROOT], Concat(front), last);
    }
  }

  // ---- writing replies ----

  /** Replies that have an encoding: lines are free of line ends, and an array knows its elements. */
  predicate Encodable(v: Reply) {
    match v
    case Error(t) => FindCrlf(t).None?
    case Status(t) => FindCrlf(t).None?
    case Array(items) => forall i | 0 <= i < |items| :: Encodable(items[i])
    case Hollow(_) => false
    case _ => true
  }

  /** At most `room` arrays inside one another. */
  predicate Fits(v: Reply, room: nat) {
    v.Array? ==> room > 0 && forall i | 0 <= i < |v.items| :: Fits(v.items[i], room - 1)
  }

  function Encode(v: Reply): string
    decreases v, 1
  {
    match v
    case Error(t) => "-" + (t + CRLF)
    case Status(t) => "+" + (t + CRLF)
    case Integer(n) => ":" + (Decimal(n) + CRLF)
    case Bulk(t) => "$" + (Decimal(|t|) + CRLF + (t + CRLF))
    case Nil => "$" + (Decimal(-1) + CRLF)
    case Array(items) => "*" + (Decimal(|items|) + CRLF + EncodeAll(items))
    case Hollow(n) => "*" + (Decimal(n) + CRLF)
  }

  function EncodeAll(vs: seq<Reply>): string
    decreases vs, 0
  {
    if vs == [] then "" else Encode(vs[0]) + EncodeAll(vs[1..])
  }

  // ---- reading a line back ----

  lemma {:induction false} CrlfAfterLine(t: string, rest: string)
    requires FindCrlf(t).None?
    ensures FindCrlf(t + CRLF + rest) == Some(|t|)
  {
    var s := t + CRLF + rest;
    if t != "" {
      assert s[1..] == t[1..] + CRLF + rest;
      CrlfAfterLine(t[1..], rest);
      assert s[1] == if |t| > 1 then t[1] else '\r';
    }
  }

  lemma {:induction false} NoCrlfInDigits(t: string)
    requires '\r' !in t
    ensures FindCrlf(t).None?
  {
    if |t| >= 2 { NoCrlfInDigits(t[1..]); }
  }

  lemma DigitsClean(s: string)
    requires AllDigits(s)
    ensures '\r' !in s && '-' !in s && '+' !in s
  {}

  lemma MagnitudeOfDigits(n: nat, sign: int, rest: string)
    ensures Magnitude(Digits(n) + CRLF + rest, sign) == sign * n
  {
    hide Digits, Value;
    var d := Digits(n);
    DigitsClean(d);
    assert d + CRLF + rest == d + (CRLF + rest);
    UpToConcat(d, '\r', CRLF + rest);
    assert UpTo(CRLF + rest, '\r') == "";
    ValueOfDigits(n);
  }

  /** A number line reads back as the number. */
  lemma NumberLine(n: int, rest: string)
    ensures var s := Decimal(n) + CRLF + rest;
            FindCrlf(s) == Some(|Decimal(n)|) && LongLong(s) == n
  {
    hide Digits, FindCrlf, Magnitude;
    var m := if n < 0 then -n else n;
    DigitsClean(Digits(m));
    NoCrlfInDigits(Decimal(n));
    CrlfAfterLine(Decimal(n), rest);
    var s := Decimal(n) + CRLF + rest;
    if n < 0 {
      assert s[0] == '-' && s[1..] == Digits(m) + CRLF + rest;
      MagnitudeOfDigits(m, -1, rest);
    } else {
      assert s[0] == Digits(m)[0];
      MagnitudeOfDigits(m, 1, rest);
    }
  }

  // ---- one item ----

  function Top(stack: seq<Task>): Task
    requires stack != []
  {
    stack[|stack| - 1]
  }

  /** The outcome once the top item is complete with `v` and `rest` is still to be read. */
  function After(m: Move, rest: string): Outcome
    requires GoodStack(m.stack)
  {
    var o := Run(m.stack, rest);
    o.(replies := Emit(m.emit) + o.replies)
  }

  lemma SetTopGood(stack: seq<Task>, t: Task)
    requires GoodStack(stack) && t.idx == Top(stack).idx
    ensures GoodStack(SetTop(stack, t)) && Top(SetTop(stack, t)) == t && |SetTop(stack, t)| == |stack|
  {}

  /** Only the place of the top task in its array matters for what comes next. */
  lemma CompleteIgnoresTop(stack: seq<Task>, t: Task, v: Reply)
    requires GoodStack(stack) && t.idx == Top(stack).idx
    ensures GoodStack(SetTop(stack, t)) && Complete(SetTop(stack, t), v) == Complete(stack, v)
  {
    SetTopGood(stack, t);
    var n := |stack| - 1;
    if n > 0 {
      assert SetTop(stack, t)[..n] == stack[..n] && SetTop(stack, t)[..n - 1] == stack[..n - 1];
    }
  }

  lemma TypeByte(stack: seq<Task>, c: char, rest: string)
    requires GoodStack(stack) && Top(stack).kind == None && KindOf(c).Some?
    ensures var typed := SetTop(stack, Top(stack).(kind := KindOf(c)));
            GoodStack(typed) && Run(stack, [c] + rest) == Run(typed, rest)
  {
    SetTopGood(stack, Top(stack).(kind := KindOf(c)));
    assert ([c] + rest)[1..] == rest;
    hide GoodStack;
  }

  lemma DoneRuns(stack: seq<Task>, input: string, used: nat, v: Reply)
    requires GoodStack(stack) && Step(stack, input) == Done(stack, used, v)
    ensures used <= |input| && Run(stack, input) == After(Complete(stack, v), input[used..])
  {
    hide Step, Complete, GoodStack;
  }

  /** A typed item whose text is read as `v` completes its task below the type byte. */
  lemma ItemRuns(stack: seq<Task>, c: char, text: string, rest: string, v: Reply)
    requires GoodStack(stack) && Top(stack).kind == None && KindOf(c).Some?
    requires var typed := SetTop(stack, Top(stack).(kind := KindOf(c)));
             GoodStack(typed) && Step(typed, text + rest) == Done(typed, |text|, v)
    ensures Run(stack, [c] + text + rest) == After(Complete(stack, v), rest)
  {
    hide Step, Complete, Run;
    var t := Top(stack).(kind := KindOf(c));
    assert [c] + text + rest == [c] + (text + rest);
    TypeByte(stack, c, text + rest);
    DoneRuns(SetTop(stack, t), text + rest, |text|, v);
    assert (text + rest)[|text|..] == rest;
    CompleteIgnoresTop(stack, t, v);
  }

  lemma LineItem(stack: seq<Task>, v: Reply, rest: string)
    requires GoodStack(stack) && Top(stack).kind == None && Encodable(v)
    requires v.Error? || v.Status? || v.Integer?
    ensures Run(stack, Encode(v) + rest) == After(Complete(stack, v), rest)
  {
    hide Complete, Run, FindCrlf, LongLong, Decimal;
    var c := if v.Error? then '-' else if v.Status? then '+' else ':';
    var line := if v.Integer? then Decimal(v.value) else v.text;
    if v.Integer? { NumberLine(v.value, rest); } else { CrlfAfterLine(v.text, rest); }
    var t := Top(stack).(kind := KindOf(c));
    SetTopGood(stack, t);
    assert (line + CRLF + rest)[..|line|] == line;
    assert Step(SetTop(stack, t), line + CRLF + rest) == Done(SetTop(stack, t), |line + CRLF|, v);
    ItemRuns(stack, c, line + CRLF, rest, v);
    assert Encode(v) == [c] + (line + CRLF);
  }

  lemma BulkItem(stack: seq<Task>, v: Reply, rest: string)
    requires GoodStack(stack) && Top(stack).kind == None && (v.Bulk? || v.Nil?)
    ensures Run(stack, Encode(v) + rest) == After(Complete(stack, v), rest)
  {
    hide Complete, Run, FindCrlf, LongLong, Decimal;
    var t := Top(stack).(kind := KindOf('$'));
    SetTopGood(stack, t);
    var typed := SetTop(stack, t);
    if v.Nil? {
      NumberLine(-1, rest);
      assert Step(typed, Decimal(-1) + CRLF + rest) == Done(typed, |Decimal(-1) + CRLF|, Nil);
      ItemRuns(stack, '$', Decimal(-1) + CRLF, rest, v);
    } else {
      var n := |v.text|;
      var head := Decimal(n) + CRLF;
      var text := head + (v.text + CRLF);
      assert text + rest == head + (v.text + CRLF + rest);
      NumberLine(n, v.text + CRLF + rest);
      assert (text + rest)[|head|..|head| + n] == v.text;
      assert Step(typed, text + rest) == Done(typed, |text|, v);
      ItemRuns(stack, '$', text, rest, v);
    }
  }

  // ---- arrays ----

  /** The stack while element `k` of an array with elements `items` is about to be read. */
  function Inside(stack: seq<Task>, items: seq<Reply>, k: nat): seq<Task>
    requires stack != [] && k <= |items|
  {
    SetTop(stack, Top(stack).(kind := Some(ArrayKind), elements := |items|, items := items[..k])) + [Task(None, -1, k, [])]
  }

  lemma InsideGood(stack: seq<Task>, items: seq<Reply>, k: nat)
    requires GoodStack(stack) && |stack| < DEPTH && k < |items|
    ensures GoodStack(Inside(stack, items, k)) && Top(Inside(stack, items, k)).kind == None
    ensures |Inside(stack, items, k)| == |stack| + 1
  {}

  function Holder(stack: seq<Task>, items: seq<Reply>, k: nat): Task
    requires stack != [] && k <= |items|
  {
    Top(stack).(kind := Some(ArrayKind), elements := |items|, items := items[..k])
  }

  lemma InsideParts(stack: seq<Task>, items: seq<Reply>, k: nat)
    requires stack != [] && k <= |items|
    ensures var s, n := Inside(stack, items, k), |stack|;
            && |s| == n + 1 && s[n - 1] == Holder(stack, items, k) && s[n] == Task(None, -1, k, [])
            && s[..n] == SetTop(stack, Holder(stack, items, k)) && s[..n - 1] == stack[..n - 1]
  {}

  lemma HeaderOpens(stack: seq<Task>, items: seq<Reply>, used: nat)
    requires GoodStack(stack) && |stack| < DEPTH && items != []
    ensures var typed := SetTop(stack, Top(stack).(kind := Some(ArrayKind)));
            GoodStack(typed) && |typed| < DEPTH && OpenArray(typed, used, |items|) == Go(Inside(stack, items, 0), used, None)
  {
    var t := Top(stack).(kind := Some(ArrayKind));
    SetTopGood(stack, t);
    hide GoodStack;
    assert SetTop(stack, t)[..|stack| - 1] == stack[..|stack| - 1];
    assert items[..0] == [];
  }

  lemma HeaderStep(stack: seq<Task>, items: seq<Reply>, rest: string)
    requires GoodStack(stack) && 1 <= |stack| < DEPTH && items != []
    ensures var typed, line := SetTop(stack, Top(stack).(kind := Some(ArrayKind))), Decimal(|items|) + CRLF;
            GoodStack(typed) && Step(typed, line + rest) == Go(Inside(stack, items, 0), |line|, None)
  {
    hide GoodStack, FindCrlf, LongLong, Decimal, OpenArray, Inside;
    SetTopGood(stack, Top(stack).(kind := Some(ArrayKind)));
    NumberLine(|items|, rest);
    HeaderOpens(stack, items, |Decimal(|items|) + CRLF|);
  }

  /** The header of a non-empty array leads to its first element. */
  lemma ArrayHeader(stack: seq<Task>, items: seq<Reply>, rest: string)
    requires GoodStack(stack) && 1 <= |stack| < DEPTH && Top(stack).kind == None && items != []
    ensures GoodStack(Inside(stack, items, 0))
    ensures Run(stack, "*" + (Decimal(|items|) + CRLF) + rest) == Run(Inside(stack, items, 0), rest)
  {
    hide GoodStack, Step, Decimal, Inside;
    InsideGood(stack, items, 0);
    HeaderStep(stack, items, rest);
    var line := Decimal(|items|) + CRLF;
    assert "*" + line + rest == ['*'] + (line + rest);
    TypeByte(stack, '*', line + rest);
    assert (line + rest)[|line|..] == rest;
    var o := Run(Inside(stack, items, 0), rest);
    assert Emit(None) + o.replies == o.replies;
  }

  /** After element `k` comes the next one, or the whole array is complete. */
  lemma ElementDone(stack: seq<Task>, items: seq<Reply>, k: nat)
    requires GoodStack(stack) && 1 <= |stack| < DEPTH && k < |items|
    ensures GoodStack(Inside(stack, items, k))
    ensures Complete(Inside(stack, items, k), items[k]) ==
            if k + 1 == |items| then Complete(stack, Array(items)) else Move(Inside(stack, items, k + 1), None)
  {
    hide GoodStack, Inside, SetTop, Complete, Top;
    InsideGood(stack, items, k);
    if k + 1 == |items| {
      LastElement(stack, items, k);
    } else {
      MiddleElement(stack, items, k);
    }
  }

  lemma LastElement(stack: seq<Task>, items: seq<Reply>, k: nat)
    requires GoodStack(stack) && 1 <= |stack| < DEPTH && k + 1 == |items| && GoodStack(Inside(stack, items, k))
    ensures Complete(Inside(stack, items, k), items[k]) == Complete(stack, Array(items))
  {
    hide GoodStack, Inside, SetTop, Complete;
    InsideParts(stack, items, k);
    CompleteOnce(Inside(stack, items, k), items[k]);
    PrefixGrows(items, k);
    CompleteIgnoresTop(stack, Holder(stack, items, k), Array(items));
  }

  lemma MiddleElement(stack: seq<Task>, items: seq<Reply>, k: nat)
    requires GoodStack(stack) && 1 <= |stack| < DEPTH && k + 1 < |items| && GoodStack(Inside(stack, items, k))
    ensures Complete(Inside(stack, items, k), items[k]) == Move(Inside(stack, items, k + 1), None)
  {
    hide GoodStack, Inside, SetTop, Complete;
    InsideParts(stack, items, k);
    CompleteOnce(Inside(stack, items, k), items[k]);
    PrefixGrows(items, k);
    NextInside(stack, items, k);
  }

  lemma PrefixGrows(items: seq<Reply>, k: nat)
    requires k < |items|
    ensures items[..k] + [items[k]] == items[..k + 1]
    ensures k + 1 == |items| ==> items[..k + 1] == items
  {}

  lemma CompleteOnce(s: seq<Task>, v: Reply)
    requires GoodStack(s) && |s| > 1
    ensures var n := |s| - 1; var items := s[n - 1].items + [v];
            Complete(s, v) ==
            if s[n].idx == s[n - 1].elements - 1 then PopGood(s); Complete(s[..n], Array(items))
            else Move(s[..n - 1] + [s[n - 1].(items := items), Task(None, -1, s[n].idx + 1, [])], None)
  {
    hide GoodStack;
  }

  lemma NextInside(stack: seq<Task>, items: seq<Reply>, k: nat)
    requires stack != [] && k < |items|
    ensures stack[..|stack| - 1] + [Holder(stack, items, k + 1), Task(None, -1, k + 1, [])] == Inside(stack, items, k + 1)
  {}

  // ---- whole replies ----

  ghost predicate Reads(stack: seq<Task>, v: Reply, rest: string)
    requires GoodStack(stack)
  {
    Run(stack, Encode(v) + rest) == After(Complete(stack, v), rest)
  }

  lemma EmptyArray(stack: seq<Task>, rest: string)
    requires GoodStack(stack) && Top(stack).kind == None && |stack| < DEPTH
    ensures Reads(stack, Array([]), rest)
  {
    hide Complete, Run, FindCrlf, LongLong, Decimal;
    var t := Top(stack).(kind := Some(ArrayKind));
    SetTopGood(stack, t);
    var text := Decimal(0) + CRLF;
    NumberLine(0, rest);
    assert Step(SetTop(stack, t), text + rest) == Done(SetTop(stack, t), |text|, Array([]));
    ItemRuns(stack, '*', text, rest, Array([]));
    assert text + EncodeAll([]) == text;
  }

  /** Reading undoes writing, for every reply that fits the stack. */
  lemma {:induction false} ReadsBack(stack: seq<Task>, v: Reply, rest: string)
    requires GoodStack(stack) && |stack| >= 1 && Top(stack).kind == None && Encodable(v) && Fits(v, DEPTH - |stack|)
    ensures Reads(stack, v, rest)
    decreases v, if v.Array? then |v.items| + 1 else 0
  {
    hide Run, Complete, Decimal, FindCrlf, GoodStack;
    match v
    case Array(items) =>
      if items == [] {
        EmptyArray(stack, rest);
      } else {
        var head := "*" + (Decimal(|items|) + CRLF);
        assert Encode(v) + rest == head + (EncodeAll(items) + rest);
        ArrayHeader(stack, items, EncodeAll(items) + rest);
        assert items[0..] == items;
        ReadsElements(stack, v, 0, rest);
      }
    case Bulk(_) => BulkItem(stack, v, rest);
    case Nil => BulkItem(stack, v, rest);
    case _ => LineItem(stack, v, rest);
  }

  lemma {:induction false} ReadsElements(stack: seq<Task>, v: Reply, k: nat, rest: string)
    requires GoodStack(stack) && 1 <= |stack| < DEPTH
    requires v.Array? && k < |v.items| && Encodable(v) && Fits(v, DEPTH - |stack|)
    ensures GoodStack(Inside(stack, v.items, k))
    ensures Run(Inside(stack, v.items, k), EncodeAll(v.items[k..]) + rest) == After(Complete(stack, v), rest)
    decreases v, |v.items| - k
  {
    hide Run, Complete, GoodStack, Inside;
    var items := v.items;
    InsideGood(stack, items, k);
    assert items[k..][0] == items[k] && items[k..][1..] == items[k + 1..];
    var more := EncodeAll(items[k + 1..]) + rest;
    assert EncodeAll(items[k..]) + rest == Encode(items[k]) + more;
    ReadsBack(Inside(stack, items, k), items[k], more);
    ElementDone(stack, items, k);
    if k + 1 == |items| {
      assert more == rest;
    } else {
      ReadsElements(stack, v, k + 1, rest);
      var o := Run(Inside(stack, items, k + 1), more);
      assert Emit(None) + o.replies == o.replies;
    }
  }

  const TOO_DEEP := Outcome([], [ROOT], "", Some(TooDeep))

  lemma ArrayAtBottom(stack: seq<Task>, rest: string)
    requires GoodStack(stack) && |stack| == DEPTH && Top(stack).kind == None
    ensures Run(stack, ['*'] + rest) == TOO_DEEP
  {
    TypeByte(stack, '*', rest);
    SetTopGood(stack, Top(stack).(kind := Some(ArrayKind)));
  }

  /** A reply with more arrays inside one another than the stack has room for is refused. */
  lemma {:induction false} RefusesDeep(stack: seq<Task>, v: Reply, rest: string)
    requires GoodStack(stack) && 1 <= |stack| <= DEPTH && Top(stack).kind == None
    requires Encodable(v) && !Fits(v, DEPTH - |stack|)
    ensures Run(stack, Encode(v) + rest) == TOO_DEEP
    decreases v, if v.Array? then |v.items| + 1 else 0
  {
    hide Run, Complete, Decimal, FindCrlf, GoodStack;
    var items := v.items;
    var line := Decimal(|items|) + CRLF;
    if |stack| == DEPTH {
      assert Encode(v) + rest == ['*'] + (line + EncodeAll(items) + rest);
      ArrayAtBottom(stack, line + EncodeAll(items) + rest);
    } else {
      assert Encode(v) + rest == "*" + line + (EncodeAll(items) + rest);
      ArrayHeader(stack, items, EncodeAll(items) + rest);
      assert items[0..] == items;
      RefusesElements(stack, v, 0, rest);
    }
  }

  lemma {:induction false} RefusesElements(stack: seq<Task>, v: Reply, k: nat, rest: string)
    requires GoodStack(stack) && 1 <= |stack| < DEPTH
    requires v.Array? && k < |v.items| && Encodable(v)
    requires exists j | k <= j < |v.items| :: !Fits(v.items[j], DEPTH - |stack| - 1)
    ensures GoodStack(Inside(stack, v.items, k))
    ensures Run(Inside(stack, v.items, k), EncodeAll(v.items[k..]) + rest) == TOO_DEEP
    decreases v, |v.items| - k
  {
    hide Run, Complete, GoodStack, Inside;
    var items := v.items;
    InsideGood(stack, items, k);
    assert items[k..][0] == items[k] && items[k..][1..] == items[k + 1..];
    var more := EncodeAll(items[k + 1..]) + rest;
    assert EncodeAll(items[k..]) + rest == Encode(items[k]) + more;
    if Fits(items[k], DEPTH - |stack| - 1) {
      ReadsBack(Inside(stack, items, k), items[k], more);
      ElementDone(stack, items, k);
      RefusesElements(stack, v, k + 1, rest);
    } else {
      RefusesDeep(Inside(stack, items, k), items[k], more);
    }
  }

  lemma RootGood()
    ensures GoodStack([ROOT]) && Top([ROOT]).kind == None
  {}

  /** A stream of replies is read back reply by reply, with nothing left over. */
  lemma {:induction false} StreamReadsBack(vs: seq<Reply>)
    requires forall i | 0 <= i < |vs| :: Encodable(vs[i]) && Fits(vs[i], DEPTH - 1)
    ensures Run([ROOT], EncodeAll(vs)) == Outcome(vs, [ROOT], "", None)
  {
    if vs != [] {
      RootGood();
      ReadsBack([ROOT], vs[0], EncodeAll(vs[1..]));
      StreamReadsBack(vs[1..]);
      assert Complete([ROOT], vs[0]) == Move([ROOT], Some(vs[0]));
      assert [vs[0]] + vs[1..] == vs;
    }
  }

  /**
   Decoding inverts encoding exactly for the replies with at most eight arrays
   inside one another; every deeper one is a protocol error.
   */
  lemma DecodeInvertsEncode(v: Reply)
    requires Encodable(v)
    ensures Run([ROOT], Encode(v)) == if Fits(v, DEPTH - 1) then Outcome([v], [ROOT], "", None) else TOO_DEEP
  {
    hide Run, GoodStack;
    RootGood();
    assert Encode(v) + "" == Encode(v);
    if Fits(v, DEPTH - 1) {
      assert [v][1..] == [] && EncodeAll([v]) == Encode(v) + "";
      StreamReadsBack([v]);
    } else {
      RefusesDeep([ROOT], v, "");
    }
  }
}
