/** The reader of hiredis as an object: a buffer with a cursor and a fixed stack of tasks. */
module RespReader {
  import opened Bytes
  import opened Text
  import opened Resp
  import opened RespLaws

  // ---- scanning ----

  function Shift(p: Option<nat>, n: nat): Option<nat> {
    if p.Some? then Some(p.value + n) else None
  }

  lemma CrlfNotHere(s: string, pos: nat)
    requires pos < |s| && !(pos + 1 < |s| && s[pos] == '\r' && s[pos + 1] == '\n')
    ensures Shift(FindCrlf(s[pos..]), pos) == Shift(FindCrlf(s[pos + 1..]), pos + 1)
  {
    assert s[pos..][1..] == s[pos + 1..];
  }

  lemma CrlfHere(s: string, pos: nat)
    requires pos + 1 < |s| && s[pos] == '\r' && s[pos + 1] == '\n'
    ensures Shift(FindCrlf(s[pos..]), pos) == Some(pos)
  {}

  lemma CrlfNowhere(s: string, pos: nat)
    requires pos <= |s| <= pos + 1
    ensures Shift(FindCrlf(s[pos..]), pos) == None
  {}

  /** seekNewline; behind the last byte the buffer holds a terminator that is no line feed. */
  method SeekNewline(s: string) returns (p: Option<nat>)
    ensures p == FindCrlf(s)
  {
    hide FindCrlf;
    var pos, len := 0, |s| - 1;
    assert FindCrlf(s) == Shift(FindCrlf(s[0..]), 0) by { assert s[0..] == s; }
    while pos < len
      invariant 0 <= pos <= |s|
      invariant FindCrlf(s) == Shift(FindCrlf(s[pos..]), pos)
      decreases |s| - pos
    {
      pos := SkipToCr(s, pos);
      if s[pos] != '\r' {
        CrlfNowhere(s, pos);
        return None;
      }
      if pos + 1 < |s| && s[pos + 1] == '\n' {
        CrlfHere(s, pos);
        return Some(pos);
      }
      CrlfNotHere(s, pos);
      pos := pos + 1;
    }
    CrlfNowhere(s, pos);
    p := None;
  }

  /** The inner loop of seekNewline: up to a carriage return or the last byte. */
  method SkipToCr(s: string, from: nat) returns (pos: nat)
    requires from < |s|
    ensures from <= pos < |s| && (s[pos] == '\r' || pos == |s| - 1)
    ensures Shift(FindCrlf(s[pos..]), pos) == Shift(FindCrlf(s[from..]), from)
  {
    hide FindCrlf;
    pos := from;
    while pos < |s| - 1 && s[pos] != '\r'
      invariant from <= pos < |s|
      invariant Shift(FindCrlf(s[pos..]), pos) == Shift(FindCrlf(s[from..]), from)
    {
      CrlfNotHere(s, pos);
      pos := pos + 1;
    }
  }

  /** The digit loop of readLongLong. */
  method ReadDigits(s: string, sign: int) returns (v: int)
    requires '\r' in s
    ensures v == Magnitude(s, sign)
  {
    ghost var digits := UpTo(s, '\r');
    CrEndsDigits(s);
    hide UpTo;
    v := 0;
    var i := 0;
    while s[i] != '\r'
      invariant 0 <= i <= |digits| < |s|
      invariant AllDigits(digits[..i]) && v == Value(digits[..i])
      decreases |digits| - i
    {
      assert s[i] == digits[i];
      if !IsDigit(s[i]) { return -1; }
      assert digits[..i + 1][..i] == digits[..i];
      v := v * 10 + (s[i] as int - '0' as int);
      i := i + 1;
    }
    assert digits[..i] == digits;
    v := sign * v;
  }

  lemma {:induction false} CrEndsDigits(s: string)
    requires '\r' in s
    ensures var d := UpTo(s, '\r'); |d| < |s| && s[|d|] == '\r' && forall k | 0 <= k < |d| :: s[k] == d[k] && s[k] != '\r'
  {
    if s[0] != '\r' { CrEndsDigits(s[1..]); }
  }

  method ReadLongLong(s: string) returns (v: int)
    requires '\r' in s
    ensures v == LongLong(s)
  {
    if s[0] == '-' {
      v := ReadDigits(s[1..], -1);
    } else if s[0] == '+' {
      v := ReadDigits(s[1..], 1);
    } else {
      v := ReadDigits(s, 1);
    }
  }

  // ---- the reader ----

  /** What the reader did agrees with one step of the stack of tasks. */
  predicate Tracks(r: Result, stack: seq<Task>, input: string, ok: bool, stack': seq<Task>, input': string,
                   emit': Option<Reply>, err: Option<Fault>) {
    match r
    case Stuck => !ok && err == None && stack' == stack && input' == input
    case Fail(f) => !ok && err == Some(f) && stack' == [ROOT] && input' == ""
    case Go(next, used, emit) => ok && err == None && stack' == next && used <= |input| && input' == input[used..] && emit' == emit
  }

  /** The loop of moveToNextTask: climbs out of every array whose last element has just been read. */
  method LeaveFinished(stack: seq<Task>, ridx: nat, v: Reply) returns (n: nat, val: Reply)
    requires ridx < |stack| && GoodStack(stack[..ridx + 1])
    ensures n <= ridx && GoodStack(stack[..n + 1]) && Complete(stack[..n + 1], val) == Complete(stack[..ridx + 1], v)
    ensures n > 0 ==> stack[n].idx != stack[n - 1].elements - 1
  {
    hide GoodStack, Complete;
    n, val := ridx, v;
    while n > 0 && stack[n].idx == stack[n - 1].elements - 1
      invariant n <= ridx && GoodStack(stack[..n + 1])
      invariant Complete(stack[..n + 1], val) == Complete(stack[..ridx + 1], v)
    {
      SliceTops(stack, n);
      CompleteOnce(stack[..n + 1], val);
      PopGood(stack[..n + 1]);
      val := Array(stack[n - 1].items + [val]);
      n := n - 1;
    }
  }

  class RedisReader {
    var buf: string
    var pos: nat
    var rstack: seq<Task>
    var ridx: int
    var reply: Option<Reply>
    var err: Option<Fault>

    function Stack(): seq<Task>
      reads this
      requires -1 <= ridx < |rstack|
    {
      if ridx == -1 then [ROOT] else rstack[..ridx + 1]
    }

    function Input(): string
      reads this
      requires pos <= |buf|
    {
      buf[pos..]
    }

    /** Between calls no array header waits at the bottom of the stack. */
    predicate Valid()
      reads this
    {
      && |rstack| == DEPTH && -1 <= ridx < DEPTH && pos <= |buf|
      && GoodStack(Stack())
      && !(ridx == DEPTH - 1 && rstack[ridx].kind == Some(ArrayKind))
      && (err.Some? ==> Stack() == [ROOT] && Input() == "")
    }

    /** redisReaderCreate */
    constructor ()
      ensures Valid() && Stack() == [ROOT] && Input() == "" && err == None
    {
      buf, pos, ridx, reply, err := "", 0, -1, None, None;
      rstack := seq(DEPTH, i => ROOT);
    }

    /** __redisReaderSetError: buffer, stack and partial reply are dropped. */
    method SetError(fault: Fault)
      modifies this
      ensures buf == "" && pos == 0 && ridx == -1 && reply == None && err == Some(fault) && rstack == old(rstack)
    {
      buf, pos, ridx, reply, err := "", 0, -1, None, Some(fault);
    }

    /** moveToNextTask, with the value of the finished item. */
    method MoveToNextTask(v: Reply)
      requires |rstack| == DEPTH && 0 <= ridx < DEPTH && GoodStack(Stack())
      modifies `rstack, `ridx, `reply
      ensures |rstack| == DEPTH && -1 <= ridx <= old(ridx)
      ensures Complete(old(Stack()), v) == Move(Stack(), if ridx == -1 then reply else None)
      ensures ridx == -1 ==> reply.Some?
      ensures ridx >= 0 ==> reply == old(reply)
    {
      hide GoodStack, Complete;
      var n, val := LeaveFinished(rstack, ridx, v);
      if n == 0 {
        CompleteAtRoot(rstack[..1], val);
        reply := Some(val);
        ridx := -1;
      } else {
        SliceTops(rstack, n);
        CompleteOnce(rstack[..n + 1], val);
        var next, prv := Task(None, -1, rstack[n].idx + 1, []), rstack[n - 1].(items := rstack[n - 1].items + [val]);
        ReplaceTops(rstack, n, prv, next);
        rstack := rstack[n - 1 := prv][n := next];
        ridx := n;
      }
    }

    ghost function Emitted(): Option<Reply>
      reads this
    {
      if ridx == -1 then reply else None
    }

    /** The state in which a typed item is to be read. */
    predicate Typed()
      reads this
    {
      && |rstack| == DEPTH && 0 <= ridx < DEPTH && pos <= |buf| && err == None
      && GoodStack(Stack()) && rstack[ridx].kind.Some?
    }

    ghost predicate Sound()
      reads this
    {
      |rstack| == DEPTH && -1 <= ridx < DEPTH && pos <= |buf|
    }

    /** An item that took `used` bytes is complete. */
    method FinishItem(used: nat, v: Reply)
      requires Typed() && used <= |Input()|
      modifies this
      ensures Sound() && Tracks(Done(old(Stack()), used, v), old(Stack()), old(Input()), true, Stack(), Input(), Emitted(), err)
      ensures ridx == -1 ==> reply.Some?
    {
      hide GoodStack, Complete;
      assert buf[pos + used..] == buf[pos..][used..];
      pos := pos + used;
      MoveToNextTask(v);
    }

    method ProcessLineItem() returns (ok: bool)
      requires Typed() && rstack[ridx].kind != Some(StringKind) && rstack[ridx].kind != Some(ArrayKind)
      modifies this
      ensures Sound() && Tracks(Step(old(Stack()), old(Input())), old(Stack()), old(Input()), ok, Stack(), Input(), Emitted(), err)
      ensures if ok then ridx == -1 ==> reply.Some? else err == None ==> ridx == old(ridx)
    {
      hide GoodStack, Complete, FindCrlf, LongLong, KindOf, ReadBulk, OpenArray, Done;
      var s := buf[pos..];
      var p := SeekNewline(s);
      if p.None? { return false; }
      var obj: Reply;
      if rstack[ridx].kind == Some(IntegerKind) {
        assert s[p.value] == '\r';
        var n := ReadLongLong(s);
        obj := Integer(n);
      } else if rstack[ridx].kind == Some(ErrorKind) {
        obj := Error(s[..p.value]);
      } else {
        obj := Status(s[..p.value]);
      }
      FinishItem(p.value + 2, obj);
      ok := true;
    }

    method ProcessBulkItem() returns (ok: bool)
      requires Typed() && rstack[ridx].kind == Some(StringKind)
      modifies this
      ensures Sound() && Tracks(Step(old(Stack()), old(Input())), old(Stack()), old(Input()), ok, Stack(), Input(), Emitted(), err)
      ensures if ok then ridx == -1 ==> reply.Some? else err == None ==> ridx == old(ridx)
    {
      hide GoodStack, Complete, FindCrlf, LongLong, KindOf, LineValue, OpenArray, Done;
      var s := buf[pos..];
      var p := SeekNewline(s);
      if p.None? { return false; }
      assert s[p.value] == '\r';
      var len := ReadLongLong(s);
      if len < 0 {
        FinishItem(p.value + 2, Nil);
        return true;
      }
      ok := TakePayload(p.value + 2, len);
    }

    /** The payload of a bulk string and the two bytes behind it, when they are all there. */
    method TakePayload(start: nat, len: nat) returns (ok: bool)
      requires Typed() && start <= |Input()|
      modifies this
      ensures ok == (start + len + 2 <= |old(Input())|)
      ensures Sound()
      ensures !ok ==> Stack() == old(Stack()) && Input() == old(Input()) && ridx == old(ridx) && err == None
      ensures ok ==>
                && (ridx == -1 ==> reply.Some?)
                && Tracks(Done(old(Stack()), start + len + 2, Bulk(old(Input())[start..start + len])), old(Stack()), old(Input()),
                          true, Stack(), Input(), Emitted(), err)
    {
      hide GoodStack, Done, Tracks;
      var s, used := buf[pos..], start + len + 2;
      if pos + used > |buf| { return false; }
      FinishItem(used, Bulk(s[start..start + len]));
      ok := true;
    }

    /** The children of a non-empty array are read next. */
    method OpenChildren(used: nat, elements: int)
      requires Typed() && rstack[ridx].kind == Some(ArrayKind) && ridx < DEPTH - 1 && used <= |Input()| && elements > 0
      modifies this
      ensures Sound() && ridx >= 0
      ensures Tracks(OpenArray(old(Stack()), used, elements), old(Stack()), old(Input()), true, Stack(), Input(), Emitted(), err)
    {
      hide GoodStack, Done;
      assert buf[pos + used..] == buf[pos..][used..];
      pos := pos + used;
      var top, child := rstack[ridx].(elements := elements, items := []), Task(None, -1, 0, []);
      PushTask(rstack, ridx, top, child);
      rstack := rstack[ridx := top][ridx + 1 := child];
      ridx := ridx + 1;
    }

    /** What the count of an array asks for. */
    method TakeCount(used: nat, elements: int)
      requires Typed() && rstack[ridx].kind == Some(ArrayKind) && ridx < DEPTH - 1 && used <= |Input()|
      modifies this
      ensures Sound() && (ridx == -1 ==> reply.Some?)
      ensures Tracks(OpenArray(old(Stack()), used, elements), old(Stack()), old(Input()), true, Stack(), Input(), Emitted(), err)
    {
      hide GoodStack, Done, Tracks;
      if elements == -1 {
        FinishItem(used, Nil);
      } else if elements > 0 {
        OpenChildren(used, elements);
      } else if elements == 0 {
        FinishItem(used, Array([]));
      } else {
        FinishItem(used, Hollow(elements));
      }
    }

    method ProcessMultiBulkItem() returns (ok: bool)
      requires Typed() && rstack[ridx].kind == Some(ArrayKind)
      modifies this
      ensures Sound() && Tracks(Step(old(Stack()), old(Input())), old(Stack()), old(Input()), ok, Stack(), Input(), Emitted(), err)
      ensures if ok then ridx == -1 ==> reply.Some? else err == None ==> ridx == old(ridx)
    {
      hide GoodStack, FindCrlf, LongLong, KindOf, LineValue, ReadBulk, OpenArray;
      if ridx == 8 {
        SetError(TooDeep);
        return false;
      }
      var s := buf[pos..];
      var p := SeekNewline(s);
      if p.None? { return false; }
      assert s[p.value] == '\r';
      var elements := ReadLongLong(s);
      TakeCount(p.value + 2, elements);
      ok := true;
    }

    /** The first half of processItem: the type byte of an item not yet begun. */
    method ReadType() returns (ok: bool)
      requires Sound() && ridx >= 0 && err == None && GoodStack(Stack()) && rstack[ridx].kind == None
      modifies this
      ensures Sound() && Tracks(Step(old(Stack()), old(Input())), old(Stack()), old(Input()), ok, Stack(), Input(), None, err)
      ensures err == None ==> ridx == old(ridx)
      ensures ok ==> rstack[ridx].kind.Some?
    {
      hide GoodStack, KindOf;
      if pos >= |buf| { return false; }
      var c := buf[pos];
      var kind := KindOf(c);
      if kind.None? {
        SetError(BadType(c));
        return false;
      }
      pos := pos + 1;
      RetypeTop(rstack, ridx, rstack[ridx].(kind := kind));
      rstack := rstack[ridx := rstack[ridx].(kind := kind)];
      ok := true;
    }

    method ProcessTyped() returns (ok: bool)
      requires Typed()
      modifies this
      ensures Sound() && Tracks(Step(old(Stack()), old(Input())), old(Stack()), old(Input()), ok, Stack(), Input(), Emitted(), err)
      ensures if ok then ridx == -1 ==> reply.Some? else err == None ==> ridx == old(ridx)
    {
      hide GoodStack, Step, Tracks;
      if rstack[ridx].kind == Some(StringKind) {
        ok := ProcessBulkItem();
      } else if rstack[ridx].kind == Some(ArrayKind) {
        ok := ProcessMultiBulkItem();
      } else {
        ok := ProcessLineItem();
      }
    }

    /** processItem; a false result means an error or that more input is needed. */
    method ProcessItem() returns (ok: bool)
      requires Valid() && ridx >= 0 && err == None
      modifies this
      ensures Valid()
      ensures ok ==> err == None && |Input()| < |old(Input())| && Run(old(Stack()), old(Input())) == Emitting(Emitted(), Run(Stack(), Input()))
      ensures !ok ==> |Input()| <= |old(Input())| && Run(old(Stack()), old(Input())) == Outcome([], Stack(), Input(), err)
      ensures if ok then ridx == -1 ==> reply.Some? else err == None ==> ridx >= 0
    {
      hide GoodStack, Step, Run, KindOf;
      ghost var stack, input := Stack(), Input();
      if rstack[ridx].kind == None {
        ok := ReadType();
        TracksRun(stack, input, ok, Stack(), Input(), None, err);
        if !ok { return; }
        RunNothing(Run(Stack(), Input()));
      }
      ghost var stack1, input1 := Stack(), Input();
      ok := ProcessTyped();
      TracksRun(stack1, input1, ok, Stack(), Input(), Emitted(), err);
    }

    /** redisReaderFeed; input is ignored after an error. */
    method Feed(data: string) returns (ok: bool)
      requires Valid()
      modifies `buf
      ensures Valid() && ok == (err == None)
      ensures Stack() == old(Stack())
      ensures Input() == if err == None then old(Input()) + data else old(Input())
    {
      if err.Some? { return false; }
      if |data| >= 1 {
        assert (buf + data)[pos..] == buf[pos..] + data;
        buf := buf + data;
      }
      ok := true;
    }

    /** redisReaderGetReply: at most one reply, and the consumed part of a long buffer is dropped. */
    method GetReply() returns (ok: bool, out: Option<Reply>)
      requires Valid()
      modifies this
      ensures Valid() && ok == (err == None) && (old(err).Some? ==> err == old(err) && Stack() == old(Stack()) && Input() == old(Input()))
      ensures out.Some? ==> ok && |Input()| < |old(Input())|
      ensures old(err) == None ==>
                Run(old(Stack()), old(Input())) == if out.Some? then Emitting(out, Run(Stack(), Input())) else Outcome([], Stack(), Input(), err)
    {
      hide GoodStack, Run, Step;
      out := None;
      if err.Some? { return false, None; }
      if |buf| == 0 {
        NothingToRead(Stack());
        return true, None;
      }
      if ridx == -1 {
        rstack := rstack[0 := ROOT];
        ridx := 0;
        assert rstack[..1] == [ROOT];
      }
      ghost var goal := Run(Stack(), Input());
      var more := true;
      while more && ridx >= 0
        invariant Valid() && |Input()| <= |old(Input())|
        invariant more ==> err == None && goal == Emitting(if ridx == -1 then reply else None, Run(Stack(), Input()))
        invariant more && ridx == -1 ==> |Input()| < |old(Input())| && reply.Some?
        invariant !more && err == None ==> ridx >= 0
        invariant !more ==> goal == Outcome([], Stack(), Input(), err)
        decreases more, |Input()|
      {
        RunNothing(Run(Stack(), Input()));
        more := ProcessItem();
      }
      if err.Some? { return false, None; }
      if pos >= 1024 {
        assert buf[pos..][0..] == buf[pos..];
        buf := buf[pos..];
        pos := 0;
      }
      if ridx == -1 {
        out := reply;
        reply := None;
      }
      ok := true;
    }
  }

  /** Takes out replies until there is none left to take. */
  method Drain(r: RedisReader) returns (replies: seq<Reply>)
    requires r.Valid() && r.err == None
    modifies r
    ensures r.Valid()
    ensures Run(old(r.Stack()), old(r.Input())) == Outcome(replies, r.Stack(), r.Input(), r.err)
  {
    hide GoodStack, Run;
    replies := [];
    ghost var goal := Run(r.Stack(), r.Input());
    while true
      invariant r.Valid() && r.err == None
      invariant var o := Run(r.Stack(), r.Input()); goal == o.(replies := replies + o.replies)
      decreases |r.Input()|
    {
      ghost var o := Run(r.Stack(), r.Input());
      var ok, out := r.GetReply();
      if out.None? { return; }
      assert replies + ([out.value] + Run(r.Stack(), r.Input()).replies) == replies + [out.value] + Run(r.Stack(), r.Input()).replies;
      replies := replies + [out.value];
    }
  }

  /**
   Feeds a stream in the given pieces, draining after each: the replies and the
   final error depend only on the bytes, not on where they were cut.
   */
  method ReadStream(chunks: seq<string>) returns (replies: seq<Reply>, fault: Option<Fault>)
    ensures var o := Run([ROOT], Concat(chunks)); replies == o.replies && fault == o.fault
  {
    hide GoodStack, Run, RunAll, Concat;
    var r := new RedisReader();
    replies := [];
    var i := 0;
    assert RunAll([]) == Outcome([], [ROOT], "", None) by { RunAllStarts(); }
    assert chunks[..0] == [];
    while i < |chunks|
      invariant 0 <= i <= |chunks| && r.Valid() && fresh(r)
      invariant RunAll(chunks[..i]) == Outcome(replies, r.Stack(), r.Input(), r.err)
    {
      RunAllStep(chunks, i);
      var ok := r.Feed(chunks[i]);
      if ok {
        var more := Drain(r);
        replies := replies + more;
      }
      i := i + 1;
    }
    assert chunks[..i] == chunks;
    CutsDoNotMatter(chunks);
    fault := r.err;
  }

  lemma RunAllStarts()
    ensures RunAll([]) == Outcome([], [ROOT], "", None)
  {}

  lemma RunAllStep(chunks: seq<string>, i: nat)
    requires i < |chunks|
    ensures RunAll(chunks[..i + 1]) == Continue(RunAll(chunks[..i]), chunks[i])
  {
    assert chunks[..i + 1][..i] == chunks[..i];
  }

  lemma NothingToRead(stack: seq<Task>)
    requires GoodStack(stack) && !(|stack| == DEPTH && Top(stack).kind == Some(ArrayKind))
    ensures Run(stack, "") == Outcome([], stack, "", None)
  {}

  function Emitting(e: Option<Reply>, o: Outcome): Outcome {
    o.(replies := Emit(e) + o.replies)
  }

  lemma RunNothing(o: Outcome)
    ensures Emitting(None, o) == o
  {
    assert [] + o.replies == o.replies;
  }

  /** A step that was tracked accounts for the outcome of the whole run. */
  lemma TracksRun(stack: seq<Task>, input: string, ok: bool, stack': seq<Task>, input': string, emit: Option<Reply>, err: Option<Fault>)
    requires GoodStack(stack) && stack != [] && Tracks(Step(stack, input), stack, input, ok, stack', input', emit, err)
    ensures GoodStack(stack')
    ensures ok ==> err == None && |input'| < |input| && Run(stack, input) == Emitting(emit, Run(stack', input'))
    ensures !ok ==> Run(stack, input) == Outcome([], stack', input', err)
    ensures !ok ==> |input'| <= |input|
    ensures !ok && err == None ==> !(|stack'| == DEPTH && Top(stack').kind == Some(ArrayKind))
    ensures ok && Top(stack).kind.Some? ==> Top(stack').kind == None
  {
    hide Step, GoodStack;
    RootGood();
    StepKinds(stack, input);
  }

  lemma StepKinds(stack: seq<Task>, input: string)
    requires GoodStack(stack) && stack != []
    ensures var r := Step(stack, input);
            && (r.Stuck? ==> !(|stack| == DEPTH && Top(stack).kind == Some(ArrayKind)))
            && (r.Go? ==> r.stack != [] && 1 <= r.used <= |input| && (Top(stack).kind.Some? ==> Top(r.stack).kind == None))
  {
    hide GoodStack, Complete, FindCrlf, LongLong, KindOf, LineValue;
  }

  lemma RetypeTop(r: seq<Task>, n: nat, t: Task)
    requires n < |r|
    ensures r[n := t][..n + 1] == SetTop(r[..n + 1], t)
  {}

  lemma PushTask(r: seq<Task>, n: nat, top: Task, child: Task)
    requires n + 1 < |r|
    ensures r[n := top][n + 1 := child][..n + 2] == SetTop(r[..n + 1], top) + [child]
  {}

  lemma CompleteAtRoot(s: seq<Task>, v: Reply)
    requires GoodStack(s) && |s| == 1
    ensures Complete(s, v) == Move([ROOT], Some(v))
  {}

  lemma SliceTops(r: seq<Task>, n: nat)
    requires 0 < n < |r|
    ensures r[..n + 1][..n] == r[..n] && r[..n + 1][..n - 1] == r[..n - 1]
    ensures r[..n + 1][n] == r[n] && r[..n + 1][n - 1] == r[n - 1]
  {}

  lemma ReplaceTops(r: seq<Task>, n: nat, prv: Task, cur: Task)
    requires 0 < n < |r|
    ensures r[n - 1 := prv][n := cur][..n + 1] == r[..n - 1] + [prv, cur]
  {}
}
