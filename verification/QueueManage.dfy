/**
 A whole queue: creation, the bounded push and pop that log their position in
 the tag files, closing, and reopening from what the directory holds.
 */
module QueueManage {
  import opened Bytes
  import opened Frame
  import opened Store
  import opened Fifo
  import Names
  import Tags

  /** mq_sm_creat_db and init_queue: the tag lines are written before the positions are set. */
  function Create(max: nat, maxque: nat): Queue {
    Queue(max,
          map[1 := NewFile(max)],
          map[1 := Tags.Line([0, 0], Tags.RTAG)],
          map[1 := Tags.Line([0, 0, maxque], Tags.WTAG)],
          map[2 := 1], map[0 := Rtag(1), 1 := Wtag(1), 3 := Data(1)], 4, 0, 1,
          Cursor(1, FILE_HEAD, 2, 3, 0), Cursor(1, FILE_HEAD, 2, 3, 0),
          0, 0, maxque)
  }

  // ---- push and pop ----

  datatype PushCode = PushOk | Full | PushError

  datatype PushResult = PushResult(q: Queue, code: PushCode)

  function IsFull(q: Queue): bool {
    q.maxque != 0 && ((q.putNum - q.getNum) % U64 + 1) % U64 > q.maxque
  }

  /** mq_sm_wtag_write_item */
  function LogWrite(q: Queue): Queue
    requires q.w.index in q.wtags
  {
    q.(wtags := q.wtags[q.w.index := q.wtags[q.w.index] + WtagLine(q)])
  }

  /** mq_sm_rtag_write_item */
  function LogRead(q: Queue): Queue
    requires q.r.index in q.rtags
  {
    q.(rtags := q.rtags[q.r.index := q.rtags[q.r.index] + RtagLine(q)])
  }

  /** mq_qm_push_item */
  function Push(q: Queue, m: Message, space: bool): PushResult
    requires Shape(q) && Sendable(q, m)
  {
    if IsFull(q) then PushResult(q, Full)
    else
      var p := PutData(q, m, space);
      if !p.ok then PushResult(p.q, PushError)
      else
        PutKeepsShape(q, m, space);
        PushResult(LogWrite(p.q), PushOk)
  }

  /** mq_qm_pop_item */
  function Pop(q: Queue): GetResult
    requires Shape(q)
  {
    if (q.putNum - q.getNum) % U64 < 1 then GetResult(q, None)
    else
      var g := GetData(q);
      if g.msg.None? then g
      else
        GetIsSafe(q);
        g.(q := LogRead(g.q))
  }

  // ---- close and reopen ----

  /** mq_qm_close_store: everything held is given back. */
  function Close(q: Queue): Queue
    requires Owns(q)
  {
    var fds := CloseFd(CloseFd(q.fds, q.rtagFd), q.wtagFd);
    if q.r.index != q.w.index then
      q.(maps := Unmap(Unmap(q.maps, q.r.mem), q.w.mem), fds := CloseFd(CloseFd(fds, q.r.fd), q.w.fd))
    else q.(maps := Unmap(q.maps, q.w.mem), fds := CloseFd(fds, q.w.fd))
  }

  datatype ReadTag = ReadTag(getNum: nat, rpos: nat, wpos: nat)

  /** mq_sm_rtag_read_item on a zeroed queue record. */
  function ReadRtag(log: string, max: nat): ReadTag {
    match Tags.ScanBack(log, Tags.RTAG, [0, 0], max)
    case Found(back, vals) => ReadTag(vals[0], vals[1], if back > 1 then max else 0)
    case NotFound(vals) => ReadTag(vals[0], 0, 0)
  }

  datatype WriteTag = WriteTag(putNum: nat, wpos: nat, maxque: nat)

  /** mq_sm_wtag_read_item; a damaged last line makes the segment count as full. */
  function ReadWtag(log: string, max: nat, wpos: nat, defMaxque: nat): WriteTag {
    match Tags.ScanBack(log, Tags.WTAG, [0, wpos, 0], max)
    case Found(back, vals) => WriteTag(vals[0], if back > 1 then max else vals[1], vals[2])
    case NotFound(vals) => WriteTag(vals[0], max, defMaxque)
  }

  /** The mappings after mq_sm_open_db: one for both cursors when they are in the same segment. */
  function OpenMaps(maps: map<nat, nat>, n: nat, r: nat, w: nat): map<nat, nat> {
    if r == w then MapFile(maps, n + 2, w) else MapFile(MapFile(maps, n + 2, w), n + 4, r)
  }

  function OpenFds(fds: map<nat, OpenFile>, n: nat, r: nat, w: nat): map<nat, OpenFile> {
    var fds := OpenFd(OpenFd(OpenFd(fds, n, Rtag(r)), n + 1, Wtag(w)), n + 3, Data(w));
    if r == w then fds else OpenFd(fds, n + 5, Data(r))
  }

  /** One pass of mq_qm_open_store over the directory of a closed queue, read in the order of `listing`. */
  function Reopen(q: Queue, listing: seq<Names.Entry>, defMaxque: nat): Option<Queue> {
    match Names.Resolve(Names.CollectAll(listing))
    case None => None
    case Some(f) =>
      if f.readId !in q.rtags || f.writeId !in q.wtags || q.rtags[f.readId] == "" || q.wtags[f.writeId] == "" then None
      else
        var rt := ReadRtag(q.rtags[f.readId], q.max);
        var wt := ReadWtag(q.wtags[f.writeId], q.max, rt.wpos, defMaxque);
        var n := q.nextId;
        var shared := f.readId == f.writeId;
        var w := Cursor(f.writeId, wt.wpos, n + 2, n + 3, 0);
        var r := if shared then w.(pos := rt.rpos) else Cursor(f.readId, rt.rpos, n + 4, n + 5, 0);
        Some(q.(
          maps := OpenMaps(q.maps, n, f.readId, f.writeId), fds := OpenFds(q.fds, n, f.readId, f.writeId),
          nextId := n + 6, rtagFd := n, wtagFd := n + 1,
          r := r, w := w,
          putNum := wt.putNum, getNum := rt.getNum, maxque := wt.maxque))
  }

  /** Closing gives everything back: no mapping and no descriptor stays behind. */
  lemma CloseReleasesAll(q: Queue)
    requires Owns(q)
    ensures Close(q).maps == map[] && Close(q).fds == map[]
  {}

  /** A torn write tag is read one line back and the next put opens a new segment. */
  lemma TornWtagForcesRoll(q: Queue, pre: string, u: seq<nat>, v: seq<nat>, torn: string, def: nat, m: Message)
    requires |u| == 3 && Tags.Fits(v, Tags.WTAG) && v[1] <= q.max && 1 <= |torn| < Tags.ItemLen(Tags.WTAG)
    ensures var t := ReadWtag(pre + Tags.Line(u, Tags.WTAG) + Tags.Line(v, Tags.WTAG) + torn, q.max, q.w.pos, def);
            t == WriteTag(v[0], q.max, v[2]) && NeedsRoll(q.(w := q.w.(pos := t.wpos)), m)
  {
    hide Tags.Line, Tags.ScanBack, Tags.ItemLen;
    Tags.TornTailRecovered(pre, u, v, torn, Tags.WTAG, [0, q.w.pos, 0], q.max);
  }
}
