/**
 The operations of a queue against a plain bounded first-in first-out queue:
 what every push, pop and reopen keeps between bytes, counters and tag logs.
 */
module QueueSteps {
  import opened Bytes
  import opened Frame
  import opened Store
  import opened Fifo
  import opened QueueManage
  import Names
  import Tags

  /**
   The reference queue. `gets` is the read counter, `stale` says that the
   counters were folded since the last push (so the write tag still holds the
   unfolded put count), and `lost` that a reopen has taken that count for real.
   */
  datatype Abs = Abs(items: seq<Message>, gets: nat, pushed: bool, stale: bool, lost: bool)

  // ---- the invariant ----

  predicate EndsWith(log: string, line: string) {
    |line| <= |log| && log[|log| - |line|..] == line
  }

  /** The last lines of the tag logs: the positions and counts a reopen would find. */
  datatype Logged = Logged(rpos: nat, put: nat)

  ghost predicate ReadLogged(q: Queue, v: View, log: Logged)
    requires Shape(q)
  {
    && EndsWith(q.rtags[q.r.index], Tags.Line([q.getNum, log.rpos], Tags.RTAG))
    && LeadsTo(q.files[q.r.index], log.rpos, v.start)
  }

  ghost predicate WriteLogged(q: Queue, a: Abs, log: Logged)
    requires Shape(q)
  {
    && log.put < U64
    && (a.pushed ==> EndsWith(q.wtags[q.w.index], Tags.Line([log.put, q.w.pos, q.maxque], Tags.WTAG)))
    && (!a.pushed ==> a.items == [] && q.getNum == 0 && EndsWith(q.wtags[q.w.index], Tags.Line([0, 0, q.maxque], Tags.WTAG))
                      && EndsWith(q.rtags[q.r.index], Tags.Line([0, 0], Tags.RTAG)))
  }

  /** The counters against the number of unread messages. */
  predicate Counted(put: nat, get: nat, maxque: nat, a: Abs, logged: nat) {
    var n := |a.items|;
    if maxque == 0 then
      !a.stale && !a.lost && n < U64 && put == (get + n) % U64 && get < U64 && (a.pushed ==> logged == put)
    else
      && get == a.gets < maxque && n <= maxque
      && put == get + n + (if a.lost then maxque else 0)
      && (a.stale || a.lost ==> get + n < maxque)
      && !(a.stale && a.lost)
      && (a.pushed ==> logged == put + (if a.stale then maxque else 0))
  }

  ghost predicate InvAt(q: Queue, a: Abs, v: View, log: Logged) {
    && Refines(q, v) && Unread(v) == a.items
    && Counted(q.putNum, q.getNum, q.maxque, a, log.put)
    && ReadLogged(q, v, log) && WriteLogged(q, a, log)
  }

  ghost predicate Inv(q: Queue, a: Abs) {
    exists v, log :: InvAt(q, a, v, log)
  }

  // ---- creation ----

  const EMPTY := Abs([], 0, false, false, false)

  lemma CreateShape(max: nat, maxque: nat)
    requires FILE_HEAD + HEAD_LEN < max <= MAX_FILE && maxque < U32
    ensures Shape(Create(max, maxque))
  {
    hide NewFile, Tags.Line;
  }

  lemma NewFileIsSegment(max: nat)
    requires FILE_HEAD <= max
    ensures Segment(NewFile(max), FILE_HEAD, []) && LeadsTo(NewFile(max), 0, FILE_HEAD)
    ensures LeadsTo(NewFile(max), FILE_HEAD, FILE_HEAD)
  {}

  lemma CreateInv(max: nat, maxque: nat)
    requires FILE_HEAD + HEAD_LEN < max <= MAX_FILE && maxque < U32
    ensures Inv(Create(max, maxque), EMPTY)
  {
    CreateShape(max, maxque);
    NewFileIsSegment(max);
    hide NewFile, Tags.Line, Owns, Segment, LeadsTo;
    var q, v, log := Create(max, maxque), View([[]], FILE_HEAD), Logged(0, 0);
    FramesOfNone();
    assert v.pend[1..] == [];
    assert Refines(q, v);
    assert InvAt(q, EMPTY, v, log);
  }

  // ---- push ----

  /** What a put leaves alone. */
  lemma PutFrame(q: Queue, m: Message, space: bool)
    requires Shape(q) && Sendable(q, m)
    ensures var p := PutData(q, m, space);
            && p.q.r == q.r && p.q.rtags == q.rtags && p.q.getNum == q.getNum && p.q.maxque == q.maxque && p.q.max == q.max
            && (p.ok ==> p.q.putNum == (q.putNum + 1) % U64)
            && (!p.ok ==> p.q.putNum == q.putNum && p.q.w == q.w && p.q.wtags == q.wtags)
  {
    hide Owns, Files, WithHead, NewFile, Overwrite, Tags.Line, Encode, Unmap, CloseFd;
    if NeedsRoll(q, m) {
      StampKeepsShape(q);
      if space { NextWriteKeepsShape(StampHead(q)); }
    }
  }

  /** A position that leads to the next unread message still does after a put. */
  lemma PutLeads(q: Queue, v: View, m: Message, space: bool, pos: nat)
    requires Holds(q, v) && Sendable(q, m) && LeadsTo(q.files[q.r.index], pos, v.start)
    ensures q.r.index in PutData(q, m, space).q.files
    ensures LeadsTo(PutData(q, m, space).q.files[q.r.index], pos, v.start)
  {
    hide Owns, Segment, WithHead, NewFile, Overwrite, Tags.Line, Encode, Unmap, CloseFd, LeadsTo, Frames;
    var file := q.files[q.r.index];
    if !NeedsRoll(q, m) {
      WriteLeads(file, pos, v.start, q.w.pos, Encode(m));
      if q.r.index == q.w.index { StartBeforeWriter(q, v); }
    } else {
      StampKeepsShape(q);
      StampLeads(file, pos, v.start, q.w.count);
      if space { NextWriteKeepsShape(StampHead(q)); }
    }
  }

  lemma StartBeforeWriter(q: Queue, v: View)
    requires Holds(q, v) && q.r.index == q.w.index
    ensures v.start <= q.w.pos
  {
    hide Owns, Segment, LeadsTo;
  }

  lemma FullExactly(q: Queue, a: Abs, logged: nat)
    requires Counted(q.putNum, q.getNum, q.maxque, a, logged) && q.maxque < U32
    ensures IsFull(q) <==> q.maxque != 0 && (a.lost || |a.items| == q.maxque)
    ensures (q.putNum - q.getNum) % U64 < 1 ==> a.items == []
  {
    if q.maxque == 0 {
      WrapDifference(q.getNum, |a.items|);
    } else {
      var d := q.putNum - q.getNum;
      ModSmall(d);
      ModSmall(d + 1);
    }
  }

  lemma WrapDifference(get: nat, n: nat)
    requires get < U64 && n < U64
    ensures ((get + n) % U64 - get) % U64 == n
  {}

  function AfterPush(a: Abs, m: Message): Abs {
    a.(items := a.items + [m], pushed := true, stale := false)
  }

  lemma PushCounted(put: nat, get: nat, maxque: nat, a: Abs, logged: nat, m: Message)
    requires Counted(put, get, maxque, a, logged) && maxque < U32
    requires maxque == 0 || (!a.lost && |a.items| < maxque)
    requires |a.items| + 1 < U64
    ensures Counted((put + 1) % U64, get, maxque, AfterPush(a, m), (put + 1) % U64)
  {
    if maxque == 0 {
      WrapSuccessor(get, |a.items|);
    }
  }

  lemma WrapSuccessor(get: nat, n: nat)
    ensures ((get + n) % U64 + 1) % U64 == (get + n + 1) % U64
  {}

  lemma LogWriteInv(q: Queue, v: View, a: Abs, log: Logged)
    requires Refines(q, v) && Unread(v) == a.items && a.pushed
    requires Counted(q.putNum, q.getNum, q.maxque, a, q.putNum)
    requires ReadLogged(q, v, log)
    ensures Inv(LogWrite(q), a)
  {
    hide Owns, Segment, LeadsTo, Frames, Tags.Line, Counted, Flatten;
    var n := LogWrite(q);
    assert Refines(n, v) by { LogWriteRefines(q, v); }
    assert InvAt(n, a, v, log.(put := q.putNum));
  }

  lemma LogWriteRefines(q: Queue, v: View)
    requires Refines(q, v)
    ensures Refines(LogWrite(q), v)
  {
    hide Segment, LeadsTo, Frames, Tags.Line;
  }

  /** A push is refused exactly when the queue is full or its counters were lost; otherwise it appends. */
  lemma PushInv(q: Queue, a: Abs, m: Message, space: bool)
    requires Inv(q, a) && Shape(q) && Sendable(q, m) && |a.items| + 1 < U64
    ensures var p := Push(q, m, space);
            match p.code
            case Full => q.maxque != 0 && (a.lost || |a.items| == q.maxque) && Inv(p.q, a)
            case PushError => !space && (q.maxque == 0 || (!a.lost && |a.items| < q.maxque)) && Inv(p.q, a)
            case PushOk => (q.maxque == 0 || (!a.lost && |a.items| < q.maxque)) && Inv(p.q, AfterPush(a, m))
    ensures Push(q, m, space).q.maxque == q.maxque && Push(q, m, space).q.max == q.max
  {
    hide Counted, Refines, ReadLogged, WriteLogged, PutData, Flatten, LogWrite, Shape, IsFull;
    var v, log :| InvAt(q, a, v, log);
    ShapeRanges(q);
    FullExactly(q, a, log.put);
    PutFrame(q, m, space);
    if !IsFull(q) {
      var p := PutData(q, m, space);
      PutRefines(q, v, m, space);
      PushNotFull(q, a, log.put);
      if p.ok {
        var v' :| Refines(p.q, v') && Unread(v') == Unread(v) + [m] && v'.start == v.start;
        PushCounted(q.putNum, q.getNum, q.maxque, a, log.put, m);
        PutReadLogged(q, v, v', log, m, space);
        LogWriteInv(p.q, v', AfterPush(a, m), log);
        PutKeepsShape(q, m, space);
        ShapeRanges(p.q);
        LogWriteFrame(p.q);
      } else {
        PutReadLogged(q, v, v, log, m, space);
        PutWriteLogged(q, a, log, m, space);
        assert InvAt(p.q, a, v, log);
      }
    }
  }

  lemma ShapeRanges(q: Queue)
    requires Shape(q)
    ensures q.maxque < U32 && q.r.index in q.rtags && q.w.index in q.wtags
  {}

  lemma PushNotFull(q: Queue, a: Abs, logged: nat)
    requires Counted(q.putNum, q.getNum, q.maxque, a, logged)
    requires !(q.maxque != 0 && (a.lost || |a.items| == q.maxque))
    ensures q.maxque == 0 || (!a.lost && |a.items| < q.maxque)
  {}

  lemma LogWriteFrame(q: Queue)
    requires q.w.index in q.wtags
    ensures LogWrite(q).maxque == q.maxque && LogWrite(q).max == q.max
  {}

  lemma PutReadLogged(q: Queue, v: View, v': View, log: Logged, m: Message, space: bool)
    requires Refines(q, v) && Sendable(q, m) && ReadLogged(q, v, log)
    requires Refines(PutData(q, m, space).q, v') && v'.start == v.start
    ensures ReadLogged(PutData(q, m, space).q, v', log)
  {
    hide PutData, LeadsTo, Owns, Segments, Frames, Tags.Line;
    PutFrame(q, m, space);
    PutLeads(q, v, m, space, log.rpos);
  }

  lemma PutWriteLogged(q: Queue, a: Abs, log: Logged, m: Message, space: bool)
    requires Shape(q) && Sendable(q, m) && WriteLogged(q, a, log)
    requires !PutData(q, m, space).ok
    ensures Shape(PutData(q, m, space).q) && WriteLogged(PutData(q, m, space).q, a, log)
  {
    PutKeepsShape(q, m, space);
    PutFrame(q, m, space);
    hide PutData, Owns, Tags.Line;
  }

  // ---- pop ----

  function AfterPop(a: Abs, maxque: nat): Abs
    requires a.items != []
  {
    var folds := a.gets + 1 == maxque;
    a.(items := a.items[1..], gets := if folds then 0 else a.gets + 1, stale := a.stale || folds)
  }

  lemma ModSmall(x: int)
    requires 0 <= x < U64
    ensures x % U64 == x
  {}

  /** The fold keeps both counters below the limit and their difference equal to the number of unread messages. */
  lemma PopCounted(put: nat, get: nat, maxque: nat, a: Abs, logged: nat)
    requires Counted(put, get, maxque, a, logged) && maxque < U32 && a.items != []
    ensures var c := CountRead(put, get, maxque); Counted(c.put, c.get, maxque, AfterPop(a, maxque), logged)
  {
    if maxque == 0 {
      PopUnlimited(put, get, a, logged);
    } else {
      ModSmall(get + 1);
      if get + 1 == maxque { ModSmall(put - maxque); }
    }
  }

  lemma PopUnlimited(put: nat, get: nat, a: Abs, logged: nat)
    requires Counted(put, get, 0, a, logged) && a.items != []
    ensures var c := CountRead(put, get, 0); Counted(c.put, c.get, 0, AfterPop(a, 0), logged)
  {
    WrapPop(put, get, |a.items|);
    ModSmall(put);
  }

  lemma WrapPop(put: nat, get: nat, n: nat)
    requires put == (get + n) % U64 && n > 0
    ensures put == ((get + 1) % U64 + (n - 1)) % U64
  {}

  lemma EmptyStart(q: Queue, v: View)
    requires Refines(q, v) && Unread(v) == []
    ensures v.start == q.w.pos
  {
    hide Owns, Segment;
    FlattenEmpty(v.pend);
    FramesOfNone();
  }

  lemma EmptyGetInv(q: Queue, a: Abs, v: View, log: Logged)
    requires InvAt(q, a, v, log) && a.items == []
    requires Refines(q.(r := q.r.(pos := q.w.pos)), v.(start := q.w.pos))
    ensures Inv(q.(r := q.r.(pos := q.w.pos)), a)
  {
    hide Refines, Counted, LeadsTo, Owns, Tags.Line, Flatten, EndsWith;
    EmptyStart(q, v);
    assert InvAt(q.(r := q.r.(pos := q.w.pos)), a, v.(start := q.w.pos), log);
  }

  lemma LogReadRefines(q: Queue, v: View)
    requires Refines(q, v)
    ensures Refines(LogRead(q), v)
  {
    hide Segment, LeadsTo, Frames, Tags.Line;
  }

  lemma LogReadInv(q: Queue, v: View, a: Abs, log: Logged)
    requires Refines(q, v) && Unread(v) == a.items && a.pushed && v.start == q.r.pos
    requires Counted(q.putNum, q.getNum, q.maxque, a, log.put)
    requires WriteLogged(q, a, log)
    ensures Inv(LogRead(q), a)
  {
    hide Owns, Segment, Frames, Tags.Line, Counted, Flatten;
    var n := LogRead(q);
    LogReadRefines(q, v);
    assert LeadsTo(n.files[n.r.index], q.r.pos, v.start);
    assert InvAt(n, a, v, log.(rpos := q.r.pos));
  }

  /** A pop returns the oldest unread message and reports the end exactly on an empty queue. */
  lemma PopInv(q: Queue, a: Abs)
    requires Inv(q, a) && Shape(q)
    ensures var g := Pop(q);
            if a.items == [] then g.msg == None && Inv(g.q, a)
            else g.msg == Some(a.items[0]) && Inv(g.q, AfterPop(a, q.maxque))
    ensures Pop(q).q.maxque == q.maxque && Pop(q).q.max == q.max
  {
    hide Counted, Refines, ReadLogged, WriteLogged, GetData, Flatten, LogRead, Shape, CountRead;
    var v, log :| InvAt(q, a, v, log);
    ShapeRanges(q);
    FullExactly(q, a, log.put);
    if (q.putNum - q.getNum) % U64 >= 1 {
      var g := GetData(q);
      GetRefines(q, v);
      GetIsSafe(q);
      if a.items == [] {
        EmptyGetInv(q, a, v, log);
      } else {
        var v' :| Refines(g.q, v') && v'.start == g.q.r.pos && Unread(v') == Unread(v)[1..];
        ShapeRanges(g.q);
        PopCounted(q.putNum, q.getNum, q.maxque, a, log.put);
        GetWriteLogged(q, g.q, a, log);
        LogReadInv(g.q, v', AfterPop(a, q.maxque), log);
        LogReadFrame(g.q);
      }
    }
  }

  lemma GetWriteLogged(q: Queue, n: Queue, a: Abs, log: Logged)
    requires Shape(q) && OnlyReads(q, n) && WriteLogged(q, a, log) && a.items != []
    ensures a.pushed && WriteLogged(n, AfterPop(a, q.maxque), log)
  {
    hide Shape, Tags.Line;
  }

  lemma LogReadFrame(q: Queue)
    requires q.r.index in q.rtags
    ensures LogRead(q).maxque == q.maxque && LogRead(q).max == q.max
  {}

  // ---- reopen ----

  function AfterReopen(a: Abs): Abs {
    a.(lost := a.lost || a.stale, stale := false)
  }

  lemma LastLine(log: string, line: string)
    requires EndsWith(log, line)
    ensures log == log[..|log| - |line|] + line
  {}

  lemma RtagRecovered(log: string, max: nat, get: nat, pos: nat)
    requires EndsWith(log, Tags.Line([get, pos], Tags.RTAG)) && get < U64 && pos <= max <= MAX_FILE
    ensures ReadRtag(log, max) == ReadTag(get, pos, 0)
  {
    hide Tags.Line, Tags.ScanBack;
    LastLine(log, Tags.Line([get, pos], Tags.RTAG));
    Tags.CleanTailRecovered(log[..|log| - |Tags.Line([get, pos], Tags.RTAG)|], [get, pos], Tags.RTAG, [0, 0], max);
  }

  lemma WtagRecovered(log: string, max: nat, put: nat, pos: nat, maxque: nat, wpos: nat, def: nat)
    requires EndsWith(log, Tags.Line([put, pos, maxque], Tags.WTAG)) && put < U64 && pos <= max <= MAX_FILE && maxque < U32
    ensures ReadWtag(log, max, wpos, def) == WriteTag(put, pos, maxque)
  {
    hide Tags.Line, Tags.ScanBack;
    var v := [put, pos, maxque];
    LastLine(log, Tags.Line(v, Tags.WTAG));
    assert Tags.Fits(v, Tags.WTAG);
    Tags.CleanTailRecovered(log[..|log| - |Tags.Line(v, Tags.WTAG)|], v, Tags.WTAG, [0, wpos, 0], max);
  }

  /** What reopening a closed queue yields once the tag lines are known. */
  function Reopened(q: Queue, rpos: nat, wpos: nat, put: nat): Queue {
    var n := q.nextId;
    var shared := q.r.index == q.w.index;
    q.(maps := OpenMaps(map[], n, q.r.index, q.w.index), fds := OpenFds(map[], n, q.r.index, q.w.index),
       nextId := n + 6, rtagFd := n, wtagFd := n + 1,
       r := if shared then Cursor(q.r.index, rpos, n + 2, n + 3, 0) else Cursor(q.r.index, rpos, n + 4, n + 5, 0),
       w := Cursor(q.w.index, wpos, n + 2, n + 3, 0),
       putNum := put)
  }

  lemma ReopenReads(q: Queue, listing: seq<Names.Entry>, def: nat, rpos: nat, wpos: nat, put: nat)
    requires Shape(q) && q.w.index < Names.LIMIT && Names.Lists(listing, q.r.index, q.w.index)
    requires q.rtags[q.r.index] != "" && q.wtags[q.w.index] != ""
    requires ReadRtag(q.rtags[q.r.index], q.max) == ReadTag(q.getNum, rpos, 0)
    requires ReadWtag(q.wtags[q.w.index], q.max, 0, def) == WriteTag(put, wpos, q.maxque)
    ensures Reopen(Close(q), listing, def) == Some(Reopened(q, rpos, wpos, put))
  {
    hide ReadRtag, ReadWtag, Names.Resolve, Names.CollectAll, Names.Lists, Files;
    ShapeRanges(q);
    Names.ReopenFindsSegments(listing, q.r.index, q.w.index);
    CloseReleasesAll(q);
    CloseFrame(q);
    hide Close, Owns, OpenMaps, OpenFds;
  }

  lemma CloseFrame(q: Queue)
    requires Owns(q)
    ensures Close(q) == q.(maps := Close(q).maps, fds := Close(q).fds)
  {}

  lemma ReopenedShape(q: Queue, rpos: nat, wpos: nat, put: nat)
    requires Shape(q) && rpos <= q.max && wpos <= q.max && put < U64
    ensures Shape(Reopened(q, rpos, wpos, put))
  {}

  lemma ReopenedRefines(q: Queue, v: View, rpos: nat, put: nat)
    requires Refines(q, v) && LeadsTo(q.files[q.r.index], rpos, v.start) && put < U64
    ensures Refines(Reopened(q, rpos, q.w.pos, put), v)
  {
    hide Owns, Segment, Frames;
    ReopenedShape(q, rpos, q.w.pos, put);
  }

  lemma ReopenCounted(put: nat, get: nat, maxque: nat, a: Abs, logged: nat)
    requires Counted(put, get, maxque, a, logged) && a.pushed
    ensures Counted(logged, get, maxque, AfterReopen(a), logged)
  {}

  lemma InvParts(q: Queue, a: Abs, v: View, log: Logged)
    requires InvAt(q, a, v, log)
    ensures Shape(q) && q.getNum < U64 && q.maxque < U32 && q.max <= MAX_FILE && log.put < U64
    ensures log.rpos <= q.max && q.w.pos <= q.max
    ensures q.rtags[q.r.index] != "" && q.wtags[q.w.index] != ""
  {
    hide Segment, Frames, Owns, Counted, Flatten;
  }

  /**
   After at least one push, closing and reopening recovers the queue: the same
   unread messages in the same order, for every order of the directory listing.
   The counters survive exactly when no fold has happened since the last push.
   */
  lemma ReopenInv(q: Queue, a: Abs, listing: seq<Names.Entry>, def: nat)
    requires Inv(q, a) && Shape(q) && a.pushed
    requires q.w.index < Names.LIMIT && Names.Lists(listing, q.r.index, q.w.index)
    ensures var n := Reopen(Close(q), listing, def);
            n.Some? && n.value.maxque == q.maxque && n.value.max == q.max && Inv(n.value, AfterReopen(a))
  {
    hide Refines, Counted, Shape, Names.Lists, Tags.Line, LeadsTo, Flatten, EndsWith, Reopened;
    var v, log :| InvAt(q, a, v, log);
    InvParts(q, a, v, log);
    ShapeRanges(q);
    RtagRecovered(q.rtags[q.r.index], q.max, q.getNum, log.rpos);
    WtagRecovered(q.wtags[q.w.index], q.max, log.put, q.w.pos, q.maxque, 0, def);
    ReopenReads(q, listing, def, log.rpos, q.w.pos, log.put);
    ReopenedRefines(q, v, log.rpos, log.put);
    ReopenCounted(q.putNum, q.getNum, q.maxque, a, log.put);
    var n := Reopened(q, log.rpos, q.w.pos, log.put);
    ReopenedFrame(q, log.rpos, q.w.pos, log.put);
    assert InvAt(n, AfterReopen(a), v, log);
  }

  lemma ReopenedFrame(q: Queue, rpos: nat, wpos: nat, put: nat)
    ensures var n := Reopened(q, rpos, wpos, put);
            && n.max == q.max && n.files == q.files && n.rtags == q.rtags && n.wtags == q.wtags
            && n.r.index == q.r.index && n.w.index == q.w.index && n.w.pos == wpos && n.r.pos == rpos
            && n.putNum == put && n.getNum == q.getNum && n.maxque == q.maxque
  {}
}
