/**
 A queue that was closed and reopened before its first push: both cursors stand
 at position zero, so its first messages are written into the file head. It
 still works as a queue until a roll stamps the head over them.
 */
module EarlyQueue {
  import opened Bytes
  import opened Frame
  import opened Store
  import opened Fifo
  import opened QueueManage
  import opened QueueSteps
  import Names
  import Tags

  /** From `rpos` to `wpos` the file holds `ms` back to back; behind it nothing looks like a message. */
  predicate Stretch(file: seq<byte>, rpos: nat, wpos: nat, ms: seq<Message>) {
    && AllProper(ms) && rpos + |Frames(ms)| == wpos <= |file|
    && file[rpos..wpos] == Frames(ms) && NoMagic(file, wpos, |file|)
  }

  /** The last lines of both tag logs are the cursors, and `logged` is the put count there. */
  predicate LogsAt(q: Queue, logged: nat)
    requires q.r.index in q.rtags && q.w.index in q.wtags
  {
    && logged < U64
    && EndsWith(q.rtags[q.r.index], Tags.Line([q.getNum, q.r.pos], Tags.RTAG))
    && EndsWith(q.wtags[q.w.index], Tags.Line([logged, q.w.pos, q.maxque], Tags.WTAG))
  }

  /** The queue stands for `a` in a single segment, wherever its cursors are. */
  ghost predicate Low(q: Queue, a: Abs, logged: nat) {
    && Shape(q) && q.r.index == q.w.index
    && Stretch(q.files[q.w.index], q.r.pos, q.w.pos, a.items)
    && Counted(q.putNum, q.getNum, q.maxque, a, logged) && (!a.pushed ==> logged == q.putNum && !a.stale && a.items == [])
    && LogsAt(q, logged)
  }

  // ---- how it comes about ----

  lemma NewFileHasNoMagic(max: nat)
    ensures NoMagic(NewFile(max), 0, max)
  {}

  /** Reopening a queue that has just been created sets both positions to zero. */
  lemma EarlyReopen(max: nat, maxque: nat, listing: seq<Names.Entry>, def: nat)
    requires FILE_HEAD + HEAD_LEN < max <= MAX_FILE && maxque < U32 && Names.Lists(listing, 1, 1)
    ensures Shape(Create(max, maxque))
    ensures var n := Reopen(Close(Create(max, maxque)), listing, def);
            n.Some? && n.value.r.pos == 0 && n.value.w.pos == 0 && n.value.max == max && n.value.maxque == maxque && Low(n.value, EMPTY, 0)
  {
    hide NewFile, Tags.Line, Names.Lists, Reopen, Close, Owns, ReadRtag, ReadWtag, Frames, NoMagic;
    var q := Create(max, maxque);
    CreateShape(max, maxque);
    WholeLine(Tags.Line([0, 0], Tags.RTAG));
    WholeLine(Tags.Line([0, 0, maxque], Tags.WTAG));
    RtagRecovered(q.rtags[1], max, 0, 0);
    WtagRecovered(q.wtags[1], max, 0, 0, maxque, 0, def);
    ReopenReads(q, listing, def, 0, 0, 0);
    ReopenedFrame(q, 0, 0, 0);
    ReopenedShape(q, 0, 0, 0);
    NewFileHasNoMagic(max);
    FramesOfNone();
    assert NewFile(max)[0..0] == [];
  }

  lemma WholeLine(line: string)
    ensures EndsWith(line, line) && (|line| > 0 ==> line != "")
  {
    assert line[0..] == line;
  }

  // ---- push ----

  lemma StretchAppend(file: seq<byte>, rpos: nat, wpos: nat, ms: seq<Message>, m: Message)
    requires Stretch(file, rpos, wpos, ms) && Proper(m) && wpos + HEAD_LEN + |m.body| <= |file|
    ensures Stretch(Overwrite(file, wpos, Encode(m)), rpos, wpos + HEAD_LEN + |m.body|, ms + [m])
  {
    hide Encode, Frames;
    FramesAppend(ms, m);
    var f := Overwrite(file, wpos, Encode(m));
    assert f[rpos..wpos] == file[rpos..wpos];
    assert f[rpos..wpos + |Encode(m)|] == f[rpos..wpos] + Encode(m);
  }

  lemma EndsWithAppended(log: string, line: string)
    ensures EndsWith(log + line, line)
  {}

  /** A push that needs no new segment appends. */
  lemma LowPush(q: Queue, a: Abs, logged: nat, m: Message, space: bool)
    requires Low(q, a, logged) && Sendable(q, m) && !NeedsRoll(q, m) && !IsFull(q) && |a.items| + 1 < U64
    ensures var p := Push(q, m, space);
            && p.code == PushOk && Low(p.q, AfterPush(a, m), (q.putNum + 1) % U64) && p.q.max == q.max && p.q.maxque == q.maxque
            && p.q.r == q.r && p.q.w.pos == q.w.pos + HEAD_LEN + |m.body|
  {
    hide Owns, Overwrite, Encode, Tags.Line, Stretch, Frames, EndsWith, Counted, IsFull;
    WriteKeepsShape(q, m);
    StretchAppend(q.files[q.w.index], q.r.pos, q.w.pos, a.items, m);
    FullExactly(q, a, logged);
    PushNotFull(q, a, logged);
    PushCounted(q.putNum, q.getNum, q.maxque, a, logged, m);
    var n := WriteMsg(q, m);
    LogWriteShape(n);
    EndsWithAppended(n.wtags[n.w.index], WtagLine(n));
    var k := LogWrite(n);
    assert n.putNum == (q.putNum + 1) % U64 && k.putNum == n.putNum;
    assert LogsAt(k, n.putNum);
    assert Stretch(k.files[k.w.index], k.r.pos, k.w.pos, AfterPush(a, m).items);
    assert Low(k, AfterPush(a, m), n.putNum);
  }

  lemma LogWriteShape(q: Queue)
    requires Shape(q)
    ensures Shape(LogWrite(q))
  {
    hide Tags.Line;
  }

  /** A roll needs a cursor behind the head, whatever the length of the message. */
  lemma RollBehindHead(q: Queue, m: Message)
    requires Sendable(q, m) && NeedsRoll(q, m)
    ensures FILE_HEAD < q.w.pos
  {}

  lemma StampedTail(file: seq<byte>, count: nat, pos: nat)
    requires |file| >= FILE_HEAD && NoMagic(file, if pos < FILE_HEAD then FILE_HEAD else pos, |file|)
    ensures NoMagic(WithHead(file, count), 0, FILE_HEAD) && NoMagic(WithHead(file, count), pos, |file|)
  {
    HeadHasNoMagic(count);
    hide HeadBytes;
    var f := WithHead(file, count);
    assert forall j | FILE_HEAD <= j < |file| :: f[j] == file[j];
  }

  /**
   The head is stamped over what lies in front of it. When nothing behind it looks like
   a message, the segment then holds none, whatever was unread in it.
   */
  lemma StampForgets(q: Queue)
    requires Shape(q) && q.r.index == q.w.index && q.r.pos <= q.w.pos && FILE_HEAD <= q.w.pos
    requires NoMagic(q.files[q.w.index], if q.r.pos < FILE_HEAD then FILE_HEAD else q.r.pos, q.max)
    ensures Holds(StampHead(q), View([[]], q.w.pos))
  {
    hide Owns, WithHead;
    StampKeepsShape(q);
    StampedTail(q.files[q.w.index], q.w.count, q.r.pos);
    FramesOfNone();
    var n, f := StampHead(q), WithHead(q.files[q.w.index], q.w.count);
    assert f[q.w.pos..q.w.pos] == [];
    assert Segment(f, q.w.pos, []);
  }

  /** After a roll from such a segment only the new message is unread. */
  lemma RollForgets(q: Queue, m: Message)
    requires Shape(q) && q.r.index == q.w.index && q.r.pos <= q.w.pos && Sendable(q, m) && NeedsRoll(q, m)
    requires NoMagic(q.files[q.w.index], if q.r.pos < FILE_HEAD then FILE_HEAD else q.r.pos, q.max)
    ensures var p := PutData(q, m, true);
            p.ok && Refines(p.q, View([[], [m]], q.w.pos)) && Unread(View([[], [m]], q.w.pos)) == [m]
  {
    hide Owns, Segment, NoMagic, Frames, WithHead, NewFile, Tags.Line, Overwrite, Encode, Unmap, CloseFd;
    RollBehindHead(q, m);
    StampForgets(q);
    StampKeepsShape(q);
    var q1, v := StampHead(q), View([[]], q.w.pos);
    NextWriteHolds(q1, v);
    NextWriteRoom(q1);
    WriteHolds(NextWriteFile(q1), BeginTail(v), m);
    NewTail(v, m);
    TwoSegments(m);
  }

  lemma NewTail(v: View, m: Message)
    requires v.pend == [[]]
    ensures AppendLast(BeginTail(v), m) == View([[], [m]], v.start)
  {
    var w := BeginTail(v).pend;
    assert w[1] + [m] == [m];
    assert w[1 := [m]] == [[], [m]];
  }

  lemma TwoSegments(m: Message)
    ensures Flatten([[], [m]]) == [m]
  {
    assert [[], [m]][1..] == [[m]] && [[m]][1..] == [];
    assert Flatten([[m]]) == [m] + Flatten([]);
  }

  /** Without room on the device a push stamps the head and changes nothing else. */
  lemma LowStamp(q: Queue, a: Abs, logged: nat, m: Message)
    requires Low(q, a, logged) && Sendable(q, m) && NeedsRoll(q, m) && !IsFull(q) && a.items == []
    ensures var p := Push(q, m, false); p.code == PushError && Low(p.q, a, logged) && p.q.max == q.max && p.q.maxque == q.maxque
  {
    hide Owns, WithHead, Tags.Line, EndsWith, Counted, IsFull;
    StampKeepsShape(q);
    RollBehindHead(q, m);
    FramesOfNone();
    StampedTail(q.files[q.w.index], q.w.count, q.w.pos);
    var f := WithHead(q.files[q.w.index], q.w.count);
    assert f[q.w.pos..q.w.pos] == [];
  }

  /** With nothing unread a roll leads into an ordinary queue. */
  lemma LowRoll(q: Queue, a: Abs, logged: nat, m: Message)
    requires Low(q, a, logged) && Sendable(q, m) && NeedsRoll(q, m) && !IsFull(q) && a.items == []
    ensures var p := Push(q, m, true);
            p.code == PushOk && Inv(p.q, AfterPush(a, m)) && p.q.max == q.max && p.q.maxque == q.maxque
  {
    hide Owns, PutData, Tags.Line, EndsWith, Counted, IsFull, Refines, Flatten, NoMagic;
    FramesOfNone();
    RollForgets(q, m);
    PutFrame(q, m, true);
    PutKeepsShape(q, m, true);
    FullExactly(q, a, logged);
    PushNotFull(q, a, logged);
    PushCounted(q.putNum, q.getNum, q.maxque, a, logged, m);
    var n, v := PutData(q, m, true).q, View([[], [m]], q.w.pos);
    RefinesLeads(n, v);
    assert a.items + [m] == [m];
    LogWriteInv(n, v, AfterPush(a, m), Logged(q.r.pos, logged));
    LogWriteFrame(n);
  }

  lemma RefinesLeads(q: Queue, v: View)
    requires Refines(q, v)
    ensures LeadsTo(q.files[q.r.index], q.r.pos, v.start)
  {}

  // ---- pop ----

  lemma StretchFirst(file: seq<byte>, rpos: nat, wpos: nat, ms: seq<Message>)
    requires Stretch(file, rpos, wpos, ms) && ms != []
    ensures StoredAt(file, rpos, ms[0]) && rpos + HEAD_LEN + |ms[0].body| <= wpos && Proper(ms[0])
    ensures Stretch(file, rpos + HEAD_LEN + |ms[0].body|, wpos, ms[1..])
  {
    hide Encode, NoMagic;
    var n := HEAD_LEN + |ms[0].body|;
    assert Proper(ms[0]);
    assert Frames(ms) == Encode(ms[0]) + Frames(ms[1..]);
    assert file[rpos..rpos + n] == Frames(ms)[..n];
    assert file[rpos + n..wpos] == Frames(ms)[n..];
  }

  lemma LogReadShape(q: Queue)
    requires Shape(q)
    ensures Shape(LogRead(q))
  {
    hide Tags.Line;
  }

  lemma SomethingToGet(put: nat, get: nat, maxque: nat, a: Abs, logged: nat)
    requires Counted(put, get, maxque, a, logged) && a.items != [] && maxque < U32
    ensures (put - get) % U64 >= 1
  {
    if maxque == 0 { WrapDifference(get, |a.items|); } else { ModSmall(put - get); }
  }

  /** The first unread message is found where the cursor stands. */
  lemma LowGet(q: Queue, a: Abs, logged: nat)
    requires Low(q, a, logged) && a.items != []
    ensures var g := GetData(q);
            g == GetResult(ReadOne(q, a.items[0]), Some(a.items[0])) && Shape(g.q)
  {
    hide Owns, Frames, NoMagic, ParseMsg, StoredAt, Counted, LogsAt, CountRead;
    var file, m := q.files[q.w.index], a.items[0];
    StretchFirst(file, q.r.pos, q.w.pos, a.items);
    ShapeBounds(q);
    ParseExact(file, q.r.pos, m);
    FoundOnlyReads(q, m);
  }

  lemma LowPop(q: Queue, a: Abs, logged: nat)
    requires Low(q, a, logged)
    ensures var g := Pop(q);
            && g.q.max == q.max && g.q.maxque == q.maxque
            && if a.items == [] then g.msg == None && g.q == q
               else g.msg == Some(a.items[0]) && Low(g.q, AfterPop(a, q.maxque), logged)
                    && g.q.w == q.w && g.q.r.pos == q.r.pos + HEAD_LEN + |a.items[0].body|
  {
    hide Owns, Frames, NoMagic, GetData, Tags.Line, EndsWith, Counted, CountRead, Stretch;
    ShapeRanges(q);
    if a.items == [] {
      LowEnd(q, a, logged);
    } else {
      var m := a.items[0];
      LowGet(q, a, logged);
      SomethingToGet(q.putNum, q.getNum, q.maxque, a, logged);
      PopCounted(q.putNum, q.getNum, q.maxque, a, logged);
      StretchFirst(q.files[q.w.index], q.r.pos, q.w.pos, a.items);
      var n := ReadOne(q, m);
      LogReadShape(n);
      EndsWithAppended(n.rtags[n.r.index], RtagLine(n));
      var k, b := LogRead(n), AfterPop(a, q.maxque);
      assert LogsAt(k, logged);
      assert Stretch(k.files[k.w.index], k.r.pos, k.w.pos, b.items);
      assert Low(k, b, logged);
    }
  }

  lemma LowEnd(q: Queue, a: Abs, logged: nat)
    requires Low(q, a, logged) && a.items == []
    ensures GetData(q) == GetResult(q, None)
  {
    hide Owns, NoMagic, Counted, LogsAt;
    FramesOfNone();
    assert q.(r := q.r.(pos := q.w.pos)) == q;
  }

  // ---- reopen ----

  lemma LowReopen(q: Queue, a: Abs, logged: nat, listing: seq<Names.Entry>, def: nat)
    requires Low(q, a, logged) && q.w.index < Names.LIMIT && Names.Lists(listing, q.r.index, q.w.index)
    ensures var n := Reopen(Close(q), listing, def);
            n.Some? && Low(n.value, AfterReopen(a), logged) && n.value.max == q.max && n.value.maxque == q.maxque
  {
    hide Owns, Names.Lists, Tags.Line, Reopen, Close, Counted, Stretch, EndsWith, ReadRtag, ReadWtag, Reopened;
    ShapeRanges(q);
    EndsNotEmpty(q, logged);
    RtagRecovered(q.rtags[q.r.index], q.max, q.getNum, q.r.pos);
    WtagRecovered(q.wtags[q.w.index], q.max, logged, q.w.pos, q.maxque, 0, def);
    ReopenReads(q, listing, def, q.r.pos, q.w.pos, logged);
    ReopenedFrame(q, q.r.pos, q.w.pos, logged);
    ReopenedShape(q, q.r.pos, q.w.pos, logged);
    EarlyCounted(q.putNum, q.getNum, q.maxque, a, logged);
  }

  lemma EndsNotEmpty(q: Queue, logged: nat)
    requires q.r.index in q.rtags && q.w.index in q.wtags && LogsAt(q, logged)
    ensures q.rtags[q.r.index] != "" && q.wtags[q.w.index] != ""
  {}

  lemma EarlyCounted(put: nat, get: nat, maxque: nat, a: Abs, logged: nat)
    requires Counted(put, get, maxque, a, logged) && (!a.pushed ==> logged == put && !a.stale)
    ensures Counted(logged, get, maxque, AfterReopen(a), logged)
  {}
}
