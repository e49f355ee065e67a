/**
 The reply protocol of Redis as hiredis reads it: an explicit stack of at most
 nine tasks that consumes one item at a time. Characters stand for bytes.
 */
module Resp {
  import opened Bytes
  import opened Text

  const CRLF := "\r\n"
  const DEPTH: nat := 9

  datatype Kind = ErrorKind | StatusKind | IntegerKind | StringKind | ArrayKind

  /** `Hollow` is what an array header with a count below -1 leaves behind. */
  datatype Reply = Error(text: string) | Status(text: string) | Integer(value: int) | Bulk(text: string) | Nil
                 | Array(items: seq<Reply>) | Hollow(count: int)

  /** One level of the stack: the item being read, and the elements read so far if it is an array. */
  datatype Task = Task(kind: Option<Kind>, elements: int, idx: int, items: seq<Reply>)

  const ROOT := Task(None, -1, -1, [])

  datatype Fault = BadType(c: char) | TooDeep

  // ---- lexing ----

  /** The first position of a carriage return followed by a line feed. */
  function FindCrlf(s: string): (p: Option<nat>)
    ensures p.Some? ==> p.value + 2 <= |s| && s[p.value] == '\r' && s[p.value + 1] == '\n'
  {
    if |s| < 2 then None
    else if s[0] == '\r' && s[1] == '\n' then Some(0)
    else match FindCrlf(s[1..]) case None => None case Some(p) => Some(p + 1)
  }

  function Magnitude(s: string, sign: int): int
  {
    var digits := UpTo(s, '\r');
    if AllDigits(digits) then sign * Value(digits) else -1
  }

  /** readLongLong: an optional sign and digits up to a carriage return; anything else reads as -1. */
  function LongLong(s: string): int
    requires s != ""
  {
    if s[0] == '-' then Magnitude(s[1..], -1)
    else if s[0] == '+' then Magnitude(s[1..], 1)
    else Magnitude(s, 1)
  }

  function KindOf(c: char): Option<Kind> {
    match c
    case '-' => Some(ErrorKind)
    case '+' => Some(StatusKind)
    case ':' => Some(IntegerKind)
    case '$' => Some(StringKind)
    case '*' => Some(ArrayKind)
    case _ => None
  }

  // ---- the stack of tasks ----

  /** Below the root every task is an element of an array that still waits for it. */
  predicate GoodStack(stack: seq<Task>) {
    && 1 <= |stack| <= DEPTH
    && stack[0].idx == -1
    && forall k | 0 <= k < |stack| - 1 ::
         && stack[k].kind == Some(ArrayKind)
         && |stack[k].items| == stack[k + 1].idx < stack[k].elements
  }

  datatype Move = Move(stack: seq<Task>, emit: Option<Reply>)

  /** moveToNextTask: the item of the top task is complete with value `v`. */
  function Complete(stack: seq<Task>, v: Reply): (m: Move)
    requires GoodStack(stack)
    ensures GoodStack(m.stack) && 1 <= |m.stack| <= |stack| && m.stack[|m.stack| - 1].kind == None
    decreases |stack|
  {
    var n := |stack| - 1;
    if n == 0 then Move([ROOT], Some(v))
    else
      var parent := stack[n - 1].(items := stack[n - 1].items + [v]);
      if stack[n].idx == parent.elements - 1 then
        PopGood(stack);
        Complete(stack[..n], Array(parent.items))
      else Move(stack[..n - 1] + [parent, Task(None, -1, stack[n].idx + 1, [])], None)
  }

  lemma PopGood(stack: seq<Task>)
    requires GoodStack(stack) && |stack| > 1
    ensures GoodStack(stack[..|stack| - 1])
  {}

  datatype Result = Stuck | Fail(fault: Fault) | Go(stack: seq<Task>, used: nat, emit: Option<Reply>)

  function Done(stack: seq<Task>, used: nat, v: Reply): Result
    requires GoodStack(stack)
  {
    var m := Complete(stack, v);
    Go(m.stack, used, m.emit)
  }

  function SetTop(stack: seq<Task>, t: Task): seq<Task>
    requires stack != []
  {
    stack[..|stack| - 1] + [t]
  }

  function LineValue(kind: Kind, line: string): Reply
    requires line != ""
  {
    match kind
    case IntegerKind => Integer(LongLong(line))
    case ErrorKind => Error(UpToCrlf(line))
    case _ => Status(UpToCrlf(line))
  }

  function UpToCrlf(line: string): string {
    match FindCrlf(line) case None => line case Some(p) => line[..p]
  }

  /** processMultiBulkItem once its line is complete. */
  function OpenArray(stack: seq<Task>, used: nat, count: int): Result
    requires GoodStack(stack) && |stack| < DEPTH
  {
    if count == -1 then Done(stack, used, Nil)
    else if count > 0 then
      var top := stack[|stack| - 1].(kind := Some(ArrayKind), elements := count, items := []);
      Go(SetTop(stack, top) + [Task(None, -1, 0, [])], used, None)
    else if count == 0 then Done(stack, used, Array([]))
    else Done(stack, used, Hollow(count))
  }

  /** processBulkItem: the length line, then the payload and two more bytes. */
  function ReadBulk(stack: seq<Task>, input: string): Result
    requires GoodStack(stack)
  {
    match FindCrlf(input)
    case None => Stuck
    case Some(p) =>
      var len := LongLong(input);
      if len < 0 then Done(stack, p + 2, Nil)
      else if p + 2 + len + 2 <= |input| then Done(stack, p + 2 + len + 2, Bulk(input[p + 2..p + 2 + len]))
      else Stuck
  }

  /** One step of processItem: read a type byte, or the item it announced. */
  function Step(stack: seq<Task>, input: string): (r: Result)
    requires GoodStack(stack)
    ensures r.Go? ==> GoodStack(r.stack) && 1 <= r.used <= |input|
  {
    var top := stack[|stack| - 1];
    match top.kind
    case None =>
      if input == "" then Stuck
      else
        var kind := KindOf(input[0]);
        if kind.None? then Fail(BadType(input[0])) else Go(SetTop(stack, top.(kind := kind)), 1, None)
    case Some(ArrayKind) =>
      if |stack| == DEPTH then Fail(TooDeep)
      else (match FindCrlf(input) case None => Stuck case Some(p) => OpenArray(stack, p + 2, LongLong(input)))
    case Some(StringKind) => ReadBulk(stack, input)
    case Some(kind) =>
      match FindCrlf(input) case None => Stuck case Some(p) => Done(stack, p + 2, LineValue(kind, input))
  }

  /** Everything a reader hands out for `input`, and what it is left with. */
  datatype Outcome = Outcome(replies: seq<Reply>, stack: seq<Task>, rest: string, fault: Option<Fault>)

  function Emit(e: Option<Reply>): seq<Reply> {
    if e.Some? then [e.value] else []
  }

  function Run(stack: seq<Task>, input: string): (o: Outcome)
    requires GoodStack(stack)
    ensures GoodStack(o.stack)
    decreases |input|
  {
    match Step(stack, input)
    case Stuck => Outcome([], stack, input, None)
    case Fail(f) => Outcome([], [ROOT], "", Some(f))
    case Go(next, used, emit) =>
      var o := Run(next, input[used..]);
      o.(replies := Emit(emit) + o.replies)
  }
}
