/**
 The queue as the program runs it: a queue record reached through a reference
 and updated in place. Every method is tied to the operation on queue values
 that the laws are proved about.
 */
module MessageQueue {
  import opened Bytes
  import opened Frame
  import opened Store
  import opened QueueManage
  import Tags
  import Names
  import QueueSteps
  import Crc16

  class QueueRef {
    var q: Queue

    /** mq_qm_add_queue */
    constructor (max: nat, maxque: nat)
      ensures q == Create(max, maxque)
      ensures FILE_HEAD + HEAD_LEN < max <= MAX_FILE && maxque < U32 ==>
                Shape(q) && QueueSteps.Inv(q, QueueSteps.EMPTY)
    {
      q := Create(max, maxque);
      if FILE_HEAD + HEAD_LEN < max <= MAX_FILE && maxque < U32 {
        QueueSteps.CreateShape(max, maxque);
        QueueSteps.CreateInv(max, maxque);
      }
    }

    method DropReadSegment()
      requires Owns(q) && q.r.index < q.w.index
      modifies this
      ensures q == Store.DropReadSegment(old(q))
    {
      hide Tags.Line, Unlink;
      var next, n, rtag, fd, mem, index := q.r.index + 1, q.nextId, q.rtagFd, q.r.fd, q.r.mem, q.r.index;
      q := q.(rtagFd := n, nextId := n + 1, fds := OpenFd(q.fds, n, Rtag(next)));
      q := q.(r := q.r.(index := next, pos := FILE_HEAD, count := 0));
      q := q.(rtags := OneLog(next, RtagLine(q)));
      q := q.(fds := CloseFd(q.fds, rtag));
      q := q.(maps := Unmap(q.maps, mem), fds := CloseFd(q.fds, fd));
      q := q.(files := Unlink(q.files, index));
    }

    method AttachReader()
      modifies this
      ensures q == Store.AttachReader(old(q))
    {
      if q.r.index == q.w.index {
        q := q.(r := q.r.(mem := q.w.mem, fd := q.w.fd));
      } else {
        var n := q.nextId;
        q := q.(maps := MapFile(q.maps, n, q.r.index), fds := OpenFd(q.fds, n + 1, Data(q.r.index)), nextId := n + 2);
        q := q.(r := q.r.(mem := n, fd := n + 1));
      }
    }

    /** get_next_read_file */
    method NextReadFile() returns (ok: bool)
      requires Shape(q)
      modifies this
      ensures ok == (old(q).r.index < old(q).w.index)
      ensures q == if ok then Store.NextReadFile(old(q)) else old(q)
    {
      hide Owns, Files, Store.AttachReader, Store.DropReadSegment;
      if q.r.index + 1 > q.w.index { return false; }
      DropReadSegment();
      AttachReader();
      ok := true;
    }

    /** get_next_write_file; `space` is the free-space test. */
    method NextWriteFile(space: bool) returns (ok: bool)
      requires Shape(q)
      modifies this
      ensures ok == space
      ensures q == if ok then Store.NextWriteFile(old(q)) else old(q)
    {
      hide Files, Tags.Line, WithHead, NewFile, SetFile;
      if !space { return false; }
      if q.w.index > q.r.index {
        q := q.(maps := Unmap(q.maps, q.w.mem), fds := CloseFd(q.fds, q.w.fd));
      }
      BeginSegment();
      ok := true;
    }

    method BeginSegment()
      requires q.wtagFd in q.fds && q.max >= FILE_HEAD
      modifies this
      ensures q == Store.BeginSegment(old(q))
    {
      hide Tags.Line, WithHead, NewFile, SetFile;
      var next, n, wtag := q.w.index + 1, q.nextId, q.wtagFd;
      q := q.(wtagFd := n, fds := OpenFd(q.fds, n, Wtag(next)));
      q := q.(maps := MapFile(q.maps, n + 1, next), fds := OpenFd(q.fds, n + 2, Data(next)), nextId := n + 3);
      q := q.(w := Cursor(next, FILE_HEAD, n + 1, n + 2, 0));
      q := q.(files := SetFile(q.files, next, WithHead(NewFile(q.max), q.w.count)));
      q := q.(wtags := OneLog(next, WtagLine(q)));
      q := q.(fds := CloseFd(q.fds, wtag));
    }

    method WriteMsg(m: Message)
      requires Shape(q) && Storable(m) && q.w.pos + HEAD_LEN + |m.body| <= q.max
      modifies this
      ensures q == Store.WriteMsg(old(q), m)
    {
      hide Owns, Overwrite, SetFile, Le32, Le16, Crc16.Remainder;
      var crc := Crc16.Crc16Append(m.body);
      var n := |m.body| + HEAD_LEN;
      var file := WriteFrame(q.files[q.w.index], q.w.pos, m, crc as nat);
      q := q.(files := SetFile(q.files, q.w.index, file));
      q := q.(w := q.w.(pos := q.w.pos + n, count := q.w.count + 1));
      q := q.(putNum := (q.putNum + 1) % U64);
    }

    /** mq_sm_put_data */
    method PutData(m: Message, space: bool) returns (ok: bool)
      requires Shape(q) && Sendable(q, m)
      modifies this
      ensures Store.PutData(old(q), m, space) == PutResult(q, ok)
    {
      hide Owns, Files, Store.NextWriteFile, Store.WriteMsg, WithHead;
      if q.w.pos + |m.body| + HEAD_LEN > q.max {
        StampKeepsShape(q);
        q := StampHead(q);
        ok := NextWriteFile(space);
        if !ok { return; }
        NextWriteKeepsShape(StampHead(old(q)));
        NextWriteRoom(StampHead(old(q)));
      }
      WriteMsg(m);
      ok := true;
    }

    /** mq_sm_get_data: the resynchronising loop */
    method GetData() returns (msg: Option<Message>)
      requires Shape(q)
      modifies this
      ensures Store.GetData(old(q)) == GetResult(q, msg)
    {
      hide Owns, Store.NextReadFile, ParseMsg, CountRead;
      while true
        invariant Shape(q)
        invariant Store.GetData(q) == Store.GetData(old(q))
        decreases q.w.index - q.r.index, q.max - q.r.pos
      {
        if q.r.index == q.w.index && q.r.pos + HEAD_LEN >= q.w.pos {
          q := q.(r := q.r.(pos := q.w.pos));
          return None;
        }
        var c := CheckMsg(q.files[q.r.index], q.r.pos);
        match c
        case Ok(m) =>
          q := q.(r := q.r.(pos := q.r.pos + |m.body| + HEAD_LEN, count := q.r.count + 1));
          CountOne();
          return Some(m);
        case MagicErr =>
          ScanOn(q, 1);
          q := SkipBytes(q, 1);
        case CrcErr =>
          ScanOn(q, 2);
          q := SkipBytes(q, 2);
        case LenBeyond =>
          ghost var before := q;
          var more := NextReadFile();
          if !more { return None; }
          NextReadKeepsShape(before);
          NextReadMoves(before);
      }
    }

    /** The counters of a successful read, folded at the limit. */
    method CountOne()
      modifies this
      ensures q == CountGet(old(q))
    {
      q := q.(getNum := (q.getNum + 1) % U64);
      if q.getNum >= q.maxque {
        q := q.(getNum := q.getNum - q.maxque);
        q := q.(putNum := (q.putNum - q.maxque) % U64);
      }
    }

    /** mq_qm_push_item behind the length check of mq_store_put */
    method Send(m: Message, space: bool) returns (code: Option<PushCode>)
      requires Shape(q)
      modifies this
      ensures code == None <==> !Sendable(old(q), m)
      ensures code == None ==> q == old(q)
      ensures code.Some? ==> Sendable(old(q), m) && Push(old(q), m, space) == PushResult(q, code.value)
    {
      hide Owns, Files, Store.PutData, WtagLine;
      if |m.body| < 1 || |m.body| > q.max - FILE_HEAD - HEAD_LEN { return None; }
      if IsFull(q) { return Some(Full); }
      PutFrame(q, m, space);
      var ok := PutData(m, space);
      if !ok { return Some(PushError); }
      q := LogWrite(q);
      code := Some(PushOk);
    }

    /** mq_qm_pop_item */
    method Receive() returns (msg: Option<Message>)
      requires Shape(q)
      modifies this
      ensures Pop(old(q)) == GetResult(q, msg)
    {
      hide Owns, Store.GetData, RtagLine, StoredAt;
      if (q.putNum - q.getNum) % U64 < 1 { return None; }
      GetIsSafe(q);
      msg := GetData();
      if msg.None? { return; }
      q := LogRead(q);
    }

    /** mq_qm_close_store for one queue */
    method Close()
      requires Owns(q)
      modifies this
      ensures q == QueueManage.Close(old(q)) && q.maps == map[] && q.fds == map[]
    {
      CloseReleasesAll(q);
      q := q.(fds := CloseFd(q.fds, q.rtagFd));
      q := q.(fds := CloseFd(q.fds, q.wtagFd));
      if q.r.index != q.w.index {
        q := q.(maps := Unmap(q.maps, q.r.mem), fds := CloseFd(q.fds, q.r.fd));
      }
      q := q.(maps := Unmap(q.maps, q.w.mem), fds := CloseFd(q.fds, q.w.fd));
    }

    /** One pass of mq_qm_open_store: find the files, read both tags, map the segments. */
    method Open(listing: seq<Names.Entry>, defMaxque: nat) returns (ok: bool)
      modifies this
      ensures Reopen(old(q), listing, defMaxque) == if ok then Some(q) else None
    {
      hide Tags.ScanBack, Names.Resolve, Names.CollectAll;
      var files := Names.FindHandleFile(listing);
      if files.None? { return false; }
      var r, w := files.value.readId, files.value.writeId;
      if r !in q.rtags || w !in q.wtags || q.rtags[r] == "" || q.wtags[w] == "" { return false; }
      var wpos := 0;
      var scan := Tags.ReadItem(q.rtags[r], Tags.RTAG, [0, 0], q.max);
      var getNum, rpos := scan.vals[0], if scan.Found? then scan.vals[1] else 0;
      if scan.Found? && scan.back > 1 { wpos := q.max; }
      scan := Tags.ReadItem(q.wtags[w], Tags.WTAG, [0, wpos, 0], q.max);
      var putNum, maxque := scan.vals[0], if scan.Found? then scan.vals[2] else defMaxque;
      wpos := if scan.Found? && scan.back <= 1 then scan.vals[1] else q.max;
      var n := q.nextId;
      q := q.(nextId := n + 6, rtagFd := n, wtagFd := n + 1, putNum := putNum, getNum := getNum, maxque := maxque);
      q := q.(maps := OpenMaps(q.maps, n, r, w), fds := OpenFds(q.fds, n, r, w));
      q := q.(w := Cursor(w, wpos, n + 2, n + 3, 0));
      q := q.(r := if r == w then q.w.(pos := rpos) else Cursor(r, rpos, n + 4, n + 5, 0));
      ok := true;
    }
  }

  /** The copies of mq_sm_db_write_msg, field after field at a moving position. */
  method WriteFrame(file: seq<byte>, pos: nat, m: Message, crc: nat) returns (f: seq<byte>)
    requires Storable(m) && pos + HEAD_LEN + |m.body| <= |file| && crc == Crc16.Crc(m.body)
    ensures f == Overwrite(file, pos, Encode(m))
  {
    hide Overwrite, Le32, Le16, Crc16.Crc;
    var p := pos;
    f := Overwrite(file, p, [MAGIC1]);
    p := p + 1;
    ghost var done := [MAGIC1];
    f := CopyField(file, pos, done, f, p, [MAGIC2]);
    p, done := p + 1, done + [MAGIC2];
    f := CopyField(file, pos, done, f, p, Le32(m.delay));
    p, done := p + 4, done + Le32(m.delay);
    f := CopyField(file, pos, done, f, p, Le16(crc));
    p, done := p + 2, done + Le16(crc);
    f := CopyField(file, pos, done, f, p, Le32(|m.body|));
    p, done := p + 4, done + Le32(|m.body|);
    f := CopyField(file, pos, done, f, p, m.body);
    assert [MAGIC1] + [MAGIC2] == [MAGIC1, MAGIC2];
  }

  /** One memcpy behind the fields that are already there. */
  method CopyField(ghost file: seq<byte>, ghost pos: nat, ghost done: seq<byte>, f0: seq<byte>, p: nat, field: seq<byte>)
    returns (f: seq<byte>)
    requires p == pos + |done| && p + |field| <= |file| && f0 == Overwrite(file, pos, done)
    ensures f == Overwrite(file, pos, done + field)
  {
    f := Overwrite(f0, p, field);
    var g := Overwrite(file, pos, done + field);
    assert forall i | 0 <= i < |file| :: f[i] == g[i];
  }

  lemma PutFrame(q: Queue, m: Message, space: bool)
    requires Shape(q) && Sendable(q, m)
    ensures var n := Store.PutData(q, m, space).q; n.w.index in n.wtags
  {
    PutKeepsShape(q, m, space);
    hide Store.PutData, Owns;
  }

  lemma ScanOn(q: Queue, k: nat)
    requires Shape(q) && ParseMsg(q.files[q.r.index], q.r.pos) != LenBeyond && k <= HEAD_LEN
    ensures Shape(SkipBytes(q, k)) && SkipBytes(q, k).w == q.w && SkipBytes(q, k).max == q.max
  {
    SkipOnlyReads(q, k);
  }
}
