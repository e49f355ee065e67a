/**
 The store as a first-in first-out queue: which messages the bytes of the
 segments stand for, and what put and get do to them.
 */
module Fifo {
  import opened Bytes
  import opened Text
  import opened Frame
  import opened Store
  import Tags

  /** The unread messages of every live segment, and where they begin in the read segment. */
  datatype View = View(pend: seq<seq<Message>>, start: nat)

  function Flatten<T>(ss: seq<seq<T>>): seq<T> {
    if ss == [] then [] else ss[0] + Flatten(ss[1..])
  }

  function Unread(v: View): seq<Message> {
    Flatten(v.pend)
  }

  predicate Proper(m: Message) {
    1 <= |m.body| && Storable(m)
  }

  predicate AllProper(ms: seq<Message>) {
    forall i | 0 <= i < |ms| :: Proper(ms[i])
  }

  function Frames(ms: seq<Message>): seq<byte>
    requires AllProper(ms)
  {
    if ms == [] then [] else Encode(ms[0]) + Frames(ms[1..])
  }

  /** No byte between `a` and `b` can begin a message. */
  predicate NoMagic(file: seq<byte>, a: nat, b: nat)
    requires b <= |file|
  {
    forall j | a <= j < b :: file[j] != MAGIC1
  }

  /** From `start` on the file holds `ms` back to back, and nothing that looks like a message elsewhere. */
  predicate Segment(file: seq<byte>, start: nat, ms: seq<Message>) {
    && AllProper(ms)
    && FILE_HEAD <= start && start + |Frames(ms)| <= |file|
    && file[start..start + |Frames(ms)|] == Frames(ms)
    && NoMagic(file, 0, FILE_HEAD)
    && NoMagic(file, start + |Frames(ms)|, |file|)
  }

  function Start(v: View, k: nat): nat {
    if k == 0 then v.start else FILE_HEAD
  }

  ghost predicate Segments(q: Queue, v: View)
    requires Files(q)
  {
    && |v.pend| == q.w.index - q.r.index + 1
    && (forall k | 0 <= k < |v.pend| :: Segment(q.files[q.r.index + k], Start(v, k), v.pend[k]))
  }

  /** Reading from `pos` finds the message at `start` next. */
  predicate LeadsTo(file: seq<byte>, pos: nat, start: nat) {
    pos <= start <= |file| && NoMagic(file, pos, start)
  }

  /** The bytes, files and cursors of `q` stand for the view `v`. */
  ghost predicate Holds(q: Queue, v: View) {
    && Shape(q) && Segments(q, v)
    && LeadsTo(q.files[q.r.index], q.r.pos, v.start)
    && q.w.pos == Start(v, |v.pend| - 1) + |Frames(v.pend[|v.pend| - 1])|
  }

  /** A segment is only begun in order to write a message into it. */
  predicate NoEmptyTail(v: View) {
    |v.pend| > 1 ==> v.pend[|v.pend| - 1] != []
  }

  ghost predicate Refines(q: Queue, v: View) {
    Holds(q, v) && NoEmptyTail(v)
  }

  // ---- one segment ----

  lemma {:induction false} FramesAppend(ms: seq<Message>, m: Message)
    requires AllProper(ms) && Proper(m)
    ensures AllProper(ms + [m])
    ensures Frames(ms + [m]) == Frames(ms) + Encode(m)
  {
    hide Encode;
    if ms == [] {
      assert ms + [m] == [m] && [m][1..] == [];
    } else {
      assert (ms + [m])[1..] == ms[1..] + [m];
      FramesAppend(ms[1..], m);
    }
  }

  lemma SegmentAppend(file: seq<byte>, start: nat, ms: seq<Message>, m: Message)
    requires Segment(file, start, ms) && Proper(m)
    requires start + |Frames(ms)| + HEAD_LEN + |m.body| <= |file|
    ensures Segment(Overwrite(file, start + |Frames(ms)|, Encode(m)), start, ms + [m])
  {
    hide Encode, Frames;
    FramesAppend(ms, m);
    var end := start + |Frames(ms)|;
    var f := Overwrite(file, end, Encode(m));
    assert f[start..end] == file[start..end];
    assert f[start..end + |Encode(m)|] == f[start..end] + Encode(m);
  }

  lemma SegmentStamp(file: seq<byte>, start: nat, ms: seq<Message>, count: nat)
    requires Segment(file, start, ms)
    ensures Segment(WithHead(file, count), start, ms)
  {
    hide Encode, Frames, Proper;
    HeadHasNoMagic(count);
    var f := WithHead(file, count);
    assert forall j | FILE_HEAD <= j < |file| :: f[j] == file[j];
    assert f[start..start + |Frames(ms)|] == file[start..start + |Frames(ms)|];
  }

  lemma HeadHasNoMagic(count: nat)
    ensures NoMagic(HeadBytes(count), 0, FILE_HEAD)
  {
    hide Pad;
  }

  lemma NewSegment(max: nat)
    requires FILE_HEAD <= max
    ensures Segment(WithHead(NewFile(max), 0), FILE_HEAD, [])
  {
    HeadHasNoMagic(0);
    hide HeadBytes;
  }

  lemma SegmentFirst(file: seq<byte>, start: nat, ms: seq<Message>)
    requires Segment(file, start, ms) && ms != []
    ensures StoredAt(file, start, ms[0]) && start + HEAD_LEN < |file|
    ensures Segment(file, start + HEAD_LEN + |ms[0].body|, ms[1..])
  {
    hide Encode;
    var n := HEAD_LEN + |ms[0].body|;
    assert Proper(ms[0]);
    assert Frames(ms) == Encode(ms[0]) + Frames(ms[1..]);
    assert file[start..start + n] == Frames(ms)[..n];
    assert file[start + n..start + |Frames(ms)|] == Frames(ms)[n..];
  }

  // ---- flattening ----

  lemma {:induction false} FlattenLast<T>(ss: seq<seq<T>>, x: T)
    requires ss != []
    ensures var n := |ss| - 1; Flatten(ss[n := ss[n] + [x]]) == Flatten(ss) + [x]
  {
    var n := |ss| - 1;
    if n == 0 {
      assert ss[n := ss[n] + [x]][1..] == [] && ss[1..] == [];
    } else {
      assert ss[n := ss[n] + [x]][1..] == ss[1..][n - 1 := ss[1..][n - 1] + [x]];
      FlattenLast(ss[1..], x);
    }
  }

  lemma {:induction false} FlattenAppend<T>(ss: seq<seq<T>>, s: seq<T>)
    ensures Flatten(ss + [s]) == Flatten(ss) + s
  {
    if ss == [] {
      assert ss + [s] == [s] && [s][1..] == [];
    } else {
      assert (ss + [s])[1..] == ss[1..] + [s];
      FlattenAppend(ss[1..], s);
    }
  }

  // ---- put ----

  function AppendLast(v: View, m: Message): View
    requires v.pend != []
  {
    var n := |v.pend| - 1;
    v.(pend := v.pend[n := v.pend[n] + [m]])
  }

  function BeginTail(v: View): View {
    v.(pend := v.pend + [[]])
  }

  lemma StampHolds(q: Queue, v: View)
    requires Holds(q, v)
    ensures Holds(StampHead(q), v)
  {
    hide Owns, WithHead, Segment, Frames;
    StampKeepsShape(q);
    var n := |v.pend| - 1;
    assert q.w.index == q.r.index + n;
    StampLeads(q.files[q.w.index], q.r.pos, v.start, q.w.count);
    forall k | 0 <= k < |v.pend|
      ensures Segment(StampHead(q).files[q.r.index + k], Start(v, k), v.pend[k])
    {
      if k == n { SegmentStamp(q.files[q.w.index], Start(v, k), v.pend[k], q.w.count); }
    }
  }

  lemma StampLeads(file: seq<byte>, pos: nat, start: nat, count: nat)
    requires |file| >= FILE_HEAD
    ensures LeadsTo(file, pos, start) ==> LeadsTo(WithHead(file, count), pos, start)
  {
    HeadHasNoMagic(count);
    hide HeadBytes;
  }

  lemma NextWriteHolds(q: Queue, v: View)
    requires Holds(q, v)
    ensures Holds(NextWriteFile(q), BeginTail(v))
  {
    hide Owns, WithHead, Segment, NewFile, Tags.Line, LeadsTo, Unmap, CloseFd;
    NextWriteKeepsShape(q);
    NewSegment(q.max);
    assert Frames([]) == [];
    var n, v' := NextWriteFile(q), BeginTail(v);
    forall k | 0 <= k < |v'.pend|
      ensures Segment(n.files[n.r.index + k], Start(v', k), v'.pend[k])
    {
      if k < |v.pend| { assert n.files[n.r.index + k] == q.files[q.r.index + k]; }
    }
  }

  lemma WriteHolds(q: Queue, v: View, m: Message)
    requires Holds(q, v) && Proper(m) && q.w.pos + HEAD_LEN + |m.body| <= q.max
    ensures Holds(WriteMsg(q, m), AppendLast(v, m))
  {
    hide Owns, Encode, Overwrite, Frames, Segment, LeadsTo;
    WriteKeepsShape(q, m);
    var last := |v.pend| - 1;
    var file := q.files[q.w.index];
    assert Segment(file, Start(v, last), v.pend[last]);
    SegmentIsProper(file, Start(v, last), v.pend[last]);
    FramesAppend(v.pend[last], m);
    SegmentAppend(file, Start(v, last), v.pend[last], m);
    WriteLeads(file, q.r.pos, v.start, q.w.pos, Encode(m));
    var n, v' := WriteMsg(q, m), AppendLast(v, m);
    forall k | 0 <= k < |v'.pend|
      ensures Segment(n.files[n.r.index + k], Start(v', k), v'.pend[k])
    {
      if k < last { assert n.files[n.r.index + k] == q.files[q.r.index + k]; }
    }
  }

  lemma SegmentIsProper(file: seq<byte>, start: nat, ms: seq<Message>)
    requires Segment(file, start, ms)
    ensures AllProper(ms)
  {}

  lemma WriteLeads(file: seq<byte>, pos: nat, start: nat, at: nat, data: seq<byte>)
    requires at + |data| <= |file|
    ensures LeadsTo(file, pos, start) && start <= at ==> LeadsTo(Overwrite(file, at, data), pos, start)
  {}

  /** A put appends its message, or is refused for lack of room and changes nothing. */
  lemma PutRefines(q: Queue, v: View, m: Message, space: bool)
    requires Refines(q, v) && Sendable(q, m)
    ensures var p := PutData(q, m, space);
            if p.ok then exists v' :: Refines(p.q, v') && Unread(v') == Unread(v) + [m] && v'.start == v.start
            else NeedsRoll(q, m) && !space && Refines(p.q, v)
  {
    hide Owns, Files, Segment, LeadsTo, Frames, WithHead, NewFile, Tags.Line, Overwrite, Encode, Flatten, Unmap, CloseFd;
    if !NeedsRoll(q, m) {
      WriteHolds(q, v, m);
      FlattenLast(v.pend, m);
      assert Refines(PutData(q, m, space).q, AppendLast(v, m));
    } else {
      StampHolds(q, v);
      if space {
        var q1 := StampHead(q);
        NextWriteHolds(q1, v);
        WriteHolds(NextWriteFile(q1), BeginTail(v), m);
        FlattenAppend(v.pend, []);
        FlattenLast(BeginTail(v).pend, m);
        assert Refines(PutData(q, m, space).q, AppendLast(BeginTail(v), m));
      }
    }
  }

  // ---- get ----

  lemma {:induction false} FlattenEmpty<T>(ss: seq<seq<T>>)
    requires Flatten(ss) == []
    ensures forall k | 0 <= k < |ss| :: ss[k] == []
  {
    if ss != [] {
      FlattenEmpty(ss[1..]);
      assert forall k | 1 <= k < |ss| :: ss[k] == ss[1..][k - 1];
    }
  }

  /** The read segment, seen on its own. */
  lemma ReadSegment(q: Queue, v: View)
    requires Refines(q, v)
    ensures var file := q.files[q.r.index];
            |v.pend| > 0 && |file| == q.max && Segment(file, v.start, v.pend[0]) && LeadsTo(file, q.r.pos, v.start)
    ensures q.r.index == q.w.index <==> |v.pend| == 1
    ensures |v.pend| == 1 ==> q.w.pos == v.start + |Frames(v.pend[0])|
    ensures v.pend[0] != [] ==> v.start + HEAD_LEN < v.start + |Frames(v.pend[0])|
  {
    hide Owns, NoMagic, Encode;
    assert Segment(q.files[q.r.index + 0], Start(v, 0), v.pend[0]);
  }

  lemma SkipRefines(q: Queue, v: View)
    requires Refines(q, v) && q.r.pos < v.start
    ensures Refines(SkipBytes(q, 1), v)
  {
    hide Owns, Segment, Frames;
    SkipOnlyReads(q, 1);
  }

  /** In the unused rest of a segment the next message moves along with the cursor. */
  lemma SkipTailRefines(q: Queue, v: View)
    requires Refines(q, v) && q.r.index < q.w.index && v.pend[0] == []
    requires q.r.pos == v.start && q.r.pos < q.max
    ensures Refines(SkipBytes(q, 1), v.(start := v.start + 1))
  {
    hide Owns, Segment, Frames;
    ReadSegment(q, v);
    SkipOnlyReads(q, 1);
    var n, v' := SkipBytes(q, 1), v.(start := v.start + 1);
    assert |Frames([])| == 0 by { FramesOfNone(); }
    forall k | 0 <= k < |v'.pend|
      ensures Segment(n.files[n.r.index + k], Start(v', k), v'.pend[k])
    {
      if k == 0 { EmptySegmentShrinks(q.files[q.r.index], v.start); }
    }
  }

  lemma FramesOfNone()
    ensures Frames([]) == []
  {}

  lemma EmptySegmentShrinks(file: seq<byte>, start: nat)
    requires Segment(file, start, []) && start < |file|
    ensures Segment(file, start + 1, [])
  {}

  lemma NextReadRefines(q: Queue, v: View)
    requires Refines(q, v) && q.r.index < q.w.index && v.pend[0] == []
    ensures Refines(NextReadFile(q), View(v.pend[1..], FILE_HEAD))
    ensures Flatten(v.pend[1..]) == Unread(v)
  {
    hide Owns, Segment, Tags.Line, Unmap, CloseFd, Frames, OpenFd, MapFile, LeadsTo;
    NextReadKeepsShape(q);
    var n, v' := NextReadFile(q), View(v.pend[1..], FILE_HEAD);
    forall k | 0 <= k < |v'.pend|
      ensures Segment(n.files[n.r.index + k], Start(v', k), v'.pend[k])
    {
      assert Segment(q.files[q.r.index + (k + 1)], Start(v, k + 1), v.pend[k + 1]);
    }
    assert Segment(n.files[n.r.index + 0], FILE_HEAD, v'.pend[0]);
    SegmentInFile(n.files[n.r.index], FILE_HEAD, v'.pend[0]);
    assert v'.pend[|v'.pend| - 1] == v.pend[|v.pend| - 1];
  }

  lemma SegmentInFile(file: seq<byte>, start: nat, ms: seq<Message>)
    requires Segment(file, start, ms)
    ensures start <= |file| && AllProper(ms) && LeadsTo(file, start, start)
  {}

  function ReadOne(q: Queue, m: Message): Queue {
    CountGet(q.(r := q.r.(pos := q.r.pos + |m.body| + HEAD_LEN, count := q.r.count + 1)))
  }

  function DropFirst(v: View): View
    requires v.pend != [] && v.pend[0] != []
  {
    View(v.pend[0 := v.pend[0][1..]], v.start + HEAD_LEN + |v.pend[0][0].body|)
  }

  lemma FoundRefines(q: Queue, v: View)
    requires Refines(q, v) && v.pend[0] != [] && q.r.pos == v.start
    ensures ParseMsg(q.files[q.r.index], q.r.pos) == Ok(v.pend[0][0])
    ensures Refines(ReadOne(q, v.pend[0][0]), DropFirst(v))
    ensures Unread(v) == [v.pend[0][0]] + Unread(DropFirst(v))
  {
    hide Shape, Segment, ParseMsg, StoredAt, Frames, Files, LeadsTo;
    ReadSegment(q, v);
    ShapeBounds(q);
    var file, m := q.files[q.r.index], v.pend[0][0];
    SegmentFirst(file, v.start, v.pend[0]);
    ParseExact(file, q.r.pos, m);
    FoundOnlyReads(q, m);
    FoundSegments(q, v);
    FoundUnread(v);
  }

  lemma ShapeBounds(q: Queue)
    requires Shape(q)
    ensures q.r.index in q.files && q.r.pos <= |q.files[q.r.index]| <= MAX_FILE
  {}

  lemma FoundUnread(v: View)
    requires v.pend != [] && v.pend[0] != []
    ensures Unread(v) == [v.pend[0][0]] + Unread(DropFirst(v))
  {
    var v' := DropFirst(v);
    assert v'.pend[1..] == v.pend[1..];
    assert v.pend[0] == [v.pend[0][0]] + v'.pend[0];
  }

  lemma FoundSegments(q: Queue, v: View)
    requires Refines(q, v) && v.pend[0] != [] && q.r.pos == v.start
    requires Shape(ReadOne(q, v.pend[0][0]))
    ensures Refines(ReadOne(q, v.pend[0][0]), DropFirst(v))
  {
    hide Owns, Segment, Frames, LeadsTo;
    var file, m := q.files[q.r.index], v.pend[0][0];
    ReadSegment(q, v);
    SegmentFirst(file, v.start, v.pend[0]);
    var n, v' := ReadOne(q, m), DropFirst(v);
    SegmentInFile(file, v.start, v.pend[0]);
    SegmentInFile(file, v'.start, v'.pend[0]);
    FoundFrames(v);
    forall k | 0 <= k < |v'.pend|
      ensures Segment(n.files[n.r.index + k], Start(v', k), v'.pend[k])
    {
      if k > 0 { assert Segment(q.files[q.r.index + k], Start(v, k), v.pend[k]); }
    }
  }

  lemma FoundFrames(v: View)
    requires v.pend != [] && v.pend[0] != [] && AllProper(v.pend[0])
    ensures AllProper(DropFirst(v).pend[0])
    ensures v.start + |Frames(v.pend[0])| == DropFirst(v).start + |Frames(DropFirst(v).pend[0])|
  {
    hide Encode;
  }

  /** What a get on `q` with unread messages `v` may lead to. */
  ghost predicate GetOutcome(q: Queue, v: View, g: GetResult) {
    if Unread(v) == [] then
      g.msg == None && g.q == q.(r := q.r.(pos := q.w.pos)) && Refines(g.q, v.(start := q.w.pos))
    else
      && g.msg == Some(Unread(v)[0])
      && Counters(g.q.putNum, g.q.getNum) == CountRead(q.putNum, q.getNum, q.maxque)
      && exists v' :: Refines(g.q, v') && v'.start == g.q.r.pos && Unread(v') == Unread(v)[1..]
  }

  lemma GetAtEnd(q: Queue, v: View)
    requires Refines(q, v) && q.r.index == q.w.index && q.r.pos + HEAD_LEN >= q.w.pos
    ensures Unread(v) == [] && GetOutcome(q, v, GetData(q))
  {
    hide Owns, Segment, Frames;
    ReadSegment(q, v);
    FramesOfNone();
    assert v.pend == [[]];
    assert v.pend[1..] == [] && Flatten(v.pend[1..]) == [];
    EndOnlyReads(q);
  }

  lemma GetFirst(q: Queue, v: View)
    requires Refines(q, v) && v.pend[0] != [] && q.r.pos == v.start
    requires !(q.r.index == q.w.index && q.r.pos + HEAD_LEN >= q.w.pos)
    ensures GetOutcome(q, v, GetData(q))
  {
    hide Shape, Segments, Segment, Frames, LeadsTo, ParseMsg, CountRead;
    ReadSegment(q, v);
    FoundRefines(q, v);
    var m := v.pend[0][0];
    assert GetData(q) == GetResult(ReadOne(q, m), Some(m));
    assert Unread(DropFirst(v)) == Unread(v)[1..];
  }

  /** In front of the next message, and behind the last one of a segment, the scan reads no magic number. */
  lemma ScanSeesNothing(q: Queue, v: View)
    requires Refines(q, v) && (q.r.pos < v.start || v.pend[0] == [])
    ensures var c := ParseMsg(q.files[q.r.index], q.r.pos);
            (c == LenBeyond && q.r.pos + HEAD_LEN >= q.max) || (c == MagicErr && q.r.pos + HEAD_LEN < q.max)
  {
    hide Owns, Frames, StoredAt;
    ReadSegment(q, v);
    FramesOfNone();
  }

  /** A get returns the oldest unread message, across any scan and any number of segments, or reports the end of an empty queue. */
  lemma {:induction false} GetRefines(q: Queue, v: View)
    requires Refines(q, v)
    ensures GetOutcome(q, v, GetData(q))
    decreases q.w.index - q.r.index, q.max - q.r.pos
  {
    hide Owns, Segment, Frames, LeadsTo, ParseMsg, GetOutcome, NextReadFile, Segments;
    ReadSegment(q, v);
    if q.r.index == q.w.index && q.r.pos + HEAD_LEN >= q.w.pos {
      GetAtEnd(q, v);
    } else if q.r.pos == v.start && v.pend[0] != [] {
      GetFirst(q, v);
    } else {
      CursorBefore(q, v);
      ScanSeesNothing(q, v);
      if q.r.pos + HEAD_LEN < q.max {
        var q1 := SkipBytes(q, 1);
        if q.r.pos < v.start {
          SkipRefines(q, v);
          GetRefines(q1, v);
          OutcomeCarries(q, q1, v, v, GetData(q));
        } else {
          AtTail(q, v);
          var v1 := v.(start := v.start + 1);
          SkipTailRefines(q, v);
          GetRefines(q1, v1);
          OutcomeCarries(q, q1, v, v1, GetData(q));
        }
      } else {
        AtTail(q, v);
        NextReadRefines(q, v);
        NextReadMoves(q);
        var q1, v1 := NextReadFile(q), View(v.pend[1..], FILE_HEAD);
        GetRefines(q1, v1);
        OutcomeCarries(q, q1, v, v1, GetData(q));
      }
    }
  }

  lemma CursorBefore(q: Queue, v: View)
    requires Refines(q, v)
    ensures q.r.pos <= v.start
  {}

  /** The cursor can only run into the unused rest of a segment that the writer has left. */
  lemma AtTail(q: Queue, v: View)
    requires Refines(q, v) && (q.r.pos + HEAD_LEN >= q.max || (q.r.pos == v.start && v.pend[0] == []))
    requires !(q.r.index == q.w.index && q.r.pos + HEAD_LEN >= q.w.pos)
    ensures v.pend[0] == [] && q.r.index < q.w.index && Unread(v) != []
  {
    hide Owns, Encode;
    ReadSegment(q, v);
    FramesOfNone();
    if Unread(v) == [] { FlattenEmpty(v.pend); }
  }

  /** Moving the cursor without consuming a message does not change the outcome. */
  lemma OutcomeCarries(q: Queue, q1: Queue, v: View, v1: View, g: GetResult)
    requires GetOutcome(q1, v1, g) && Unread(v1) == Unread(v)
    requires Unread(v) != [] || (q1 == SkipBytes(q, 1) && v1 == v)
    requires q1.putNum == q.putNum && q1.getNum == q.getNum && q1.maxque == q.maxque
    ensures GetOutcome(q, v, g)
  {
    hide Refines, Flatten, CountRead;
  }
}
