/**
 The segmented store of one queue as a value: the files of its directory, the
 descriptors and mappings the process holds, the two cursors and the counters.
 Each function is one operation of the store on such a value.
 */
module Store {
  import opened Bytes
  import opened Text
  import opened Frame
  import Tags

  const FILE_HEAD: nat := 128

  /** The file behind an open descriptor. */
  datatype OpenFile = Data(index: nat) | Rtag(index: nat) | Wtag(index: nat)

  /** A cursor into the data file `index`, mapped at `mem` and open as `fd`. */
  datatype Cursor = Cursor(index: nat, pos: nat, mem: nat, fd: nat, count: nat)

  datatype Queue = Queue(
    max: nat,
    files: map<nat, seq<byte>>, rtags: map<nat, string>, wtags: map<nat, string>,
    maps: map<nat, nat>, fds: map<nat, OpenFile>, nextId: nat, rtagFd: nat, wtagFd: nat,
    r: Cursor, w: Cursor,
    putNum: nat, getNum: nat, maxque: nat)

  /** Exactly the mappings of the read and write segments are held: one when the cursors are in the same segment. */
  predicate OwnsMaps(q: Queue) {
    && q.maps.Keys == {q.r.mem, q.w.mem}
    && q.maps[q.r.mem] == q.r.index && q.maps[q.w.mem] == q.w.index
    && (q.r.index == q.w.index ==> q.r.mem == q.w.mem)
    && q.r.mem < q.nextId && q.w.mem < q.nextId
  }

  /** Exactly the descriptors of those segments and of the two tag files are open. */
  predicate OwnsFds(q: Queue) {
    && q.fds.Keys == {q.r.fd, q.w.fd, q.rtagFd, q.wtagFd}
    && q.fds[q.r.fd] == Data(q.r.index) && q.fds[q.w.fd] == Data(q.w.index)
    && q.fds[q.rtagFd] == Rtag(q.r.index) && q.fds[q.wtagFd] == Wtag(q.w.index)
    && (q.r.index == q.w.index ==> q.r.fd == q.w.fd)
    && q.r.fd < q.nextId && q.w.fd < q.nextId && q.rtagFd < q.nextId && q.wtagFd < q.nextId
  }

  predicate Owns(q: Queue) {
    OwnsMaps(q) && OwnsFds(q)
  }

  /** The data files are exactly the segments from the read to the write index, one tag file each. */
  ghost predicate Files(q: Queue) {
    && (forall i :: i in q.files <==> q.r.index <= i <= q.w.index)
    && (forall i | i in q.files :: |q.files[i]| == q.max)
    && q.rtags.Keys == {q.r.index} && q.wtags.Keys == {q.w.index}
  }

  predicate Ranges(q: Queue) {
    && FILE_HEAD + HEAD_LEN < q.max <= MAX_FILE
    && 1 <= q.r.index <= q.w.index
    && q.r.pos <= q.max && q.w.pos <= q.max
    && q.putNum < U64 && q.getNum < U64 && q.maxque < U32
  }

  /** Everything but the contents of the data files. */
  ghost predicate Shape(q: Queue) {
    Ranges(q) && Owns(q) && Files(q)
  }

  // ---- files ----

  /** A new file: zero bytes, and a '0' in the last place. */
  function NewFile(max: nat): (f: seq<byte>)
    ensures |f| == max
  {
    seq(max, i => if i == max - 1 then 0x30 else 0)
  }

  /** The version digit and the message count, zero-filled to the length of the head. */
  function HeadBytes(count: nat): (h: seq<byte>)
    ensures |h| == FILE_HEAD
  {
    var digits := Pad(count, 12);
    seq(FILE_HEAD, i requires 0 <= i < FILE_HEAD =>
      if i == 0 then 0x31 else if i <= 12 then assert IsDigit(digits[i - 1]); digits[i - 1] as int else 0)
  }

  function WithHead(file: seq<byte>, count: nat): (f: seq<byte>)
    requires |file| >= FILE_HEAD
    ensures |f| == |file|
  {
    HeadBytes(count) + file[FILE_HEAD..]
  }

  function Overwrite(file: seq<byte>, pos: nat, data: seq<byte>): (f: seq<byte>)
    requires pos + |data| <= |file|
    ensures |f| == |file|
  {
    file[..pos] + data + file[pos + |data|..]
  }

  function OpenFd(fds: map<nat, OpenFile>, fd: nat, file: OpenFile): map<nat, OpenFile> { fds[fd := file] }

  function MapFile(maps: map<nat, nat>, mem: nat, index: nat): map<nat, nat> { maps[mem := index] }

  function SetFile(files: map<nat, seq<byte>>, index: nat, file: seq<byte>): map<nat, seq<byte>> { files[index := file] }

  function Unlink(files: map<nat, seq<byte>>, index: nat): map<nat, seq<byte>> { files - {index} }

  /** munmap on a mapping that is held; addresses are never handed out again. */
  function Unmap(maps: map<nat, nat>, mem: nat): map<nat, nat>
    requires mem in maps
  {
    maps - {mem}
  }

  /** close on a descriptor that is open; descriptors are never handed out again. */
  function CloseFd(fds: map<nat, OpenFile>, fd: nat): map<nat, OpenFile>
    requires fd in fds
  {
    fds - {fd}
  }

  // ---- rotation ----

  function RtagLine(q: Queue): string {
    Tags.Line([q.getNum, q.r.pos], Tags.RTAG)
  }

  function WtagLine(q: Queue): string {
    Tags.Line([q.putNum, q.w.pos, q.maxque], Tags.WTAG)
  }

  function OneLog(index: nat, line: string): map<nat, string> {
    map[index := line]
  }

  /** The used-up read segment and its tag file are given back and removed. */
  function DropReadSegment(q: Queue): Queue
    requires Owns(q) && q.r.index < q.w.index
  {
    var i := q.r.index + 1;
    q.(rtagFd := q.nextId,
       nextId := q.nextId + 1,
       fds := CloseFd(CloseFd(OpenFd(q.fds, q.nextId, Rtag(i)), q.rtagFd), q.r.fd),
       maps := Unmap(q.maps, q.r.mem),
       files := Unlink(q.files, q.r.index),
       rtags := OneLog(i, Tags.Line([q.getNum, FILE_HEAD], Tags.RTAG)),
       r := q.r.(index := i, pos := FILE_HEAD, count := 0))
  }

  /** The next segment is mapped, or shared with the writer. */
  function AttachReader(q: Queue): Queue {
    if q.r.index == q.w.index then q.(r := q.r.(mem := q.w.mem, fd := q.w.fd))
    else
      q.(maps := MapFile(q.maps, q.nextId, q.r.index),
         fds := OpenFd(q.fds, q.nextId + 1, Data(q.r.index)),
         nextId := q.nextId + 2,
         r := q.r.(mem := q.nextId, fd := q.nextId + 1))
  }

  /** get_next_read_file, when there is a next one */
  function NextReadFile(q: Queue): (n: Queue)
    requires Shape(q) && q.r.index < q.w.index
  {
    AttachReader(DropReadSegment(q))
  }

  /** The writer lets go of its segment unless the reader is still in it. */
  function DetachWriter(q: Queue): Queue
    requires Owns(q)
  {
    if q.w.index > q.r.index then q.(maps := Unmap(q.maps, q.w.mem), fds := CloseFd(q.fds, q.w.fd)) else q
  }

  function BeginSegment(q: Queue): Queue
    requires q.wtagFd in q.fds && q.max >= FILE_HEAD
  {
    var i := q.w.index + 1;
    q.(maps := MapFile(q.maps, q.nextId + 1, i),
       fds := CloseFd(OpenFd(OpenFd(q.fds, q.nextId, Wtag(i)), q.nextId + 2, Data(i)), q.wtagFd),
       nextId := q.nextId + 3,
       wtagFd := q.nextId,
       files := SetFile(q.files, i, WithHead(NewFile(q.max), 0)),
       w := Cursor(i, FILE_HEAD, q.nextId + 1, q.nextId + 2, 0),
       wtags := OneLog(i, Tags.Line([q.putNum, FILE_HEAD, q.maxque], Tags.WTAG)))
  }

  /** get_next_write_file, once there is room on the device */
  function NextWriteFile(q: Queue): (n: Queue)
    requires Shape(q)
  {
    BeginSegment(DetachWriter(q))
  }

  // ---- put and get ----

  /** Lengths the API lets through. */
  predicate Sendable(q: Queue, m: Message) {
    1 <= |m.body| <= q.max - FILE_HEAD - HEAD_LEN
  }

  function StampHead(q: Queue): (n: Queue)
    requires Shape(q)
  {
    q.(files := SetFile(q.files, q.w.index, WithHead(q.files[q.w.index], q.w.count)))
  }

  function WriteMsg(q: Queue, m: Message): (n: Queue)
    requires Shape(q) && Storable(m) && q.w.pos + HEAD_LEN + |m.body| <= q.max
  {
    var file := q.files[q.w.index];
    q.(files := SetFile(q.files, q.w.index, Overwrite(file, q.w.pos, Encode(m))),
       w := q.w.(pos := q.w.pos + HEAD_LEN + |m.body|, count := q.w.count + 1),
       putNum := (q.putNum + 1) % U64)
  }

  predicate NeedsRoll(q: Queue, m: Message) {
    q.w.pos + |m.body| + HEAD_LEN > q.max
  }

  datatype PutResult = PutResult(q: Queue, ok: bool)

  /** mq_sm_put_data; `space` says whether the device has room for another segment. */
  function PutData(q: Queue, m: Message, space: bool): PutResult
    requires Shape(q) && Sendable(q, m)
  {
    if !NeedsRoll(q, m) then PutResult(WriteMsg(q, m), true)
    else
      StampKeepsShape(q);
      if !space then PutResult(StampHead(q), false)
      else
        NextWriteKeepsShape(StampHead(q));
        PutResult(WriteMsg(NextWriteFile(StampHead(q)), m), true)
  }

  datatype Counters = Counters(put: nat, get: nat)

  /** The counters after a successful read, both folded back once the limit is reached. */
  function CountRead(put: nat, get: nat, maxque: nat): Counters {
    var next := (get + 1) % U64;
    if next >= maxque then Counters((put - maxque) % U64, next - maxque) else Counters(put, next)
  }

  function CountGet(q: Queue): Queue {
    var c := CountRead(q.putNum, q.getNum, q.maxque);
    q.(putNum := c.put, getNum := c.get)
  }

  datatype GetResult = GetResult(q: Queue, msg: Option<Message>)

  /** mq_sm_get_data: scan for the next message, moving on to the next segment at the end of one. */
  function GetData(q: Queue): GetResult
    requires Shape(q)
    decreases q.w.index - q.r.index, q.max - q.r.pos
  {
    if q.r.index == q.w.index && q.r.pos + HEAD_LEN >= q.w.pos then
      GetResult(q.(r := q.r.(pos := q.w.pos)), None)
    else
      match ParseMsg(q.files[q.r.index], q.r.pos)
      case Ok(m) =>
        var q' := q.(r := q.r.(pos := q.r.pos + |m.body| + HEAD_LEN, count := q.r.count + 1));
        GetResult(CountGet(q'), Some(m))
      case MagicErr => GetData(SkipBytes(q, 1))
      case CrcErr => GetData(SkipBytes(q, 2))
      case LenBeyond =>
        if q.r.index + 1 > q.w.index then GetResult(q, None)
        else
          NextReadKeepsShape(q);
          GetData(NextReadFile(q))
  }

  // ---- every step keeps the shape ----

  lemma StampKeepsShape(q: Queue)
    requires Shape(q)
    ensures Shape(StampHead(q))
  {
    hide WithHead;
  }

  lemma NextReadKeepsShape(q: Queue)
    requires Shape(q) && q.r.index < q.w.index
    ensures Shape(NextReadFile(q))
  {
    NextReadOwns(q);
    NextReadFiles(q);
  }

  lemma NextReadOwns(q: Queue)
    requires Shape(q) && q.r.index < q.w.index
    ensures Owns(NextReadFile(q))
  {
    NextReadMaps(q);
    NextReadFds(q);
  }

  lemma NextReadMaps(q: Queue)
    requires Shape(q) && q.r.index < q.w.index
    ensures OwnsMaps(NextReadFile(q))
  {
    hide Tags.Line, Files, OwnsFds;
  }

  lemma NextReadFds(q: Queue)
    requires Shape(q) && q.r.index < q.w.index
    ensures OwnsFds(NextReadFile(q))
  {
    hide Tags.Line, Files, OwnsMaps;
  }

  lemma NextReadFiles(q: Queue)
    requires Shape(q) && q.r.index < q.w.index
    ensures Ranges(NextReadFile(q)) && Files(NextReadFile(q))
  {
    hide Tags.Line, Unmap, CloseFd;
  }

  lemma NextWriteKeepsShape(q: Queue)
    requires Shape(q)
    ensures Shape(NextWriteFile(q))
  {
    NextWriteOwns(q);
    NextWriteFiles(q);
  }

  lemma NextWriteOwns(q: Queue)
    requires Shape(q)
    ensures Owns(NextWriteFile(q))
  {
    NextWriteMaps(q);
    NextWriteFds(q);
  }

  lemma NextWriteMaps(q: Queue)
    requires Shape(q)
    ensures OwnsMaps(NextWriteFile(q))
  {
    hide Tags.Line, WithHead, NewFile, Files, OwnsFds;
  }

  lemma NextWriteFds(q: Queue)
    requires Shape(q)
    ensures OwnsFds(NextWriteFile(q))
  {
    hide Tags.Line, WithHead, NewFile, Files, OwnsMaps;
  }

  lemma NextWriteFiles(q: Queue)
    requires Shape(q)
    ensures Ranges(NextWriteFile(q)) && Files(NextWriteFile(q))
  {
    hide Tags.Line, WithHead, NewFile, Unmap, CloseFd;
  }

  lemma WriteKeepsShape(q: Queue, m: Message)
    requires Shape(q) && Storable(m) && q.w.pos + HEAD_LEN + |m.body| <= q.max
    ensures Shape(WriteMsg(q, m))
  {
    hide Overwrite, Encode;
  }

  lemma PutKeepsShape(q: Queue, m: Message, space: bool)
    requires Shape(q) && Sendable(q, m)
    ensures Shape(PutData(q, m, space).q)
  {
    hide Owns, Files, Encode, Overwrite, WithHead, NewFile, Tags.Line;
    if !NeedsRoll(q, m) {
      WriteKeepsShape(q, m);
    } else {
      StampKeepsShape(q);
      if space {
        NextWriteKeepsShape(StampHead(q));
        WriteKeepsShape(NextWriteFile(StampHead(q)), m);
      }
    }
  }

  /** `m` was read complete, magic and checksum included, at or behind the cursor in a segment that was there before. */
  ghost predicate ReadFrom(q: Queue, n: Queue, m: Message) {
    var start := n.r.pos - HEAD_LEN - |m.body|;
    && n.r.index in q.files && start >= 0
    && (n.r.index == q.r.index ==> q.r.pos <= start)
    && StoredAt(q.files[n.r.index], start, m)
  }

  /** What reading leaves alone, whatever the data files contain. */
  ghost predicate OnlyReads(q: Queue, n: Queue) {
    && Shape(n) && n.max == q.max && n.maxque == q.maxque
    && n.w == q.w && n.wtags == q.wtags && n.wtagFd == q.wtagFd
    && q.r.index <= n.r.index
    && forall i | i in n.files :: i in q.files && n.files[i] == q.files[i]
  }

  function SkipBytes(q: Queue, k: nat): Queue {
    q.(r := q.r.(pos := q.r.pos + k))
  }

  lemma SkipOnlyReads(q: Queue, k: nat)
    requires Shape(q) && q.r.pos + k <= q.max
    ensures OnlyReads(q, SkipBytes(q, k))
  {}

  lemma FoundOnlyReads(q: Queue, m: Message)
    requires Shape(q) && StoredAt(q.files[q.r.index], q.r.pos, m)
    ensures var n := CountGet(q.(r := q.r.(pos := q.r.pos + |m.body| + HEAD_LEN, count := q.r.count + 1)));
            OnlyReads(q, n) && ReadFrom(q, n, m)
  {
    hide Encode;
    var n := CountGet(q.(r := q.r.(pos := q.r.pos + |m.body| + HEAD_LEN, count := q.r.count + 1)));
    assert n.r.pos - HEAD_LEN - |m.body| == q.r.pos;
  }

  lemma NextReadOnlyReads(q: Queue)
    requires Shape(q) && q.r.index < q.w.index
    ensures OnlyReads(q, NextReadFile(q))
  {
    NextReadKeepsShape(q);
    hide Shape;
  }

  lemma ReadsCompose(q: Queue, q1: Queue, n: Queue, msg: Option<Message>)
    requires OnlyReads(q, q1) && OnlyReads(q1, n)
    requires q1.r.index == q.r.index ==> q.r.pos <= q1.r.pos
    requires msg.Some? ==> ReadFrom(q1, n, msg.value)
    ensures OnlyReads(q, n)
    ensures msg.Some? ==> ReadFrom(q, n, msg.value)
  {
    hide StoredAt, Shape;
  }

  /**
   Resynchronisation: for arbitrary file contents and any read position the
   scan ends, and what it returns is a complete message of a live segment.
   */
  lemma {:induction false} GetIsSafe(q: Queue)
    requires Shape(q)
    ensures var g := GetData(q); OnlyReads(q, g.q) && (g.msg.Some? ==> ReadFrom(q, g.q, g.msg.value))
    decreases q.w.index - q.r.index, q.max - q.r.pos
  {
    hide NextReadFile, Owns, StoredAt, CountGet, OnlyReads, ReadFrom;
    var file, g := q.files[q.r.index], GetData(q);
    if q.r.index == q.w.index && q.r.pos + HEAD_LEN >= q.w.pos {
      EndOnlyReads(q);
    } else {
      match ParseMsg(file, q.r.pos)
      case Ok(m) =>
        ParseExact(file, q.r.pos, m);
        FoundOnlyReads(q, m);
      case MagicErr =>
        SkipOnlyReads(q, 1);
        GetIsSafe(SkipBytes(q, 1));
        ReadsCompose(q, SkipBytes(q, 1), g.q, g.msg);
      case CrcErr =>
        SkipOnlyReads(q, 2);
        GetIsSafe(SkipBytes(q, 2));
        ReadsCompose(q, SkipBytes(q, 2), g.q, g.msg);
      case LenBeyond =>
        if q.r.index < q.w.index {
          NextReadKeepsShape(q);
          NextReadOnlyReads(q);
          NextReadMoves(q);
          GetIsSafe(NextReadFile(q));
          ReadsCompose(q, NextReadFile(q), g.q, g.msg);
        } else {
          SkipOnlyReads(q, 0);
        }
    }
  }

  lemma EndOnlyReads(q: Queue)
    requires Shape(q)
    ensures OnlyReads(q, q.(r := q.r.(pos := q.w.pos)))
  {}

  lemma NextReadMoves(q: Queue)
    requires Shape(q) && q.r.index < q.w.index
    ensures var n := NextReadFile(q);
            && n.r.index == q.r.index + 1 && n.w == q.w && n.max == q.max
            && n.putNum == q.putNum && n.getNum == q.getNum && n.maxque == q.maxque
  {}

  lemma NextWriteRoom(q: Queue)
    requires Shape(q)
    ensures NextWriteFile(q).max == q.max && NextWriteFile(q).w.pos == FILE_HEAD
  {}
}
