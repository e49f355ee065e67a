/** http_parser_execute as a loop over a buffer that takes body bytes in blocks. */
module HttpExecute {
  import opened Bytes
  import opened Text
  import opened HttpBody

  /** The bytes from the body mark up to the cursor. */
  function Marked(data: string, mark: Option<nat>, p: nat): string
    requires p <= |data| && (mark.Some? ==> mark.value <= p)
  {
    if mark.Some? then data[mark.value..p] else ""
  }

  /** The parser with its marked bytes is where reading byte by byte would have got it. */
  ghost predicate InStep(s: Parser, data: string, now: Parser, mark: Option<nat>, p: nat) {
    && p <= |data| && (mark.Some? ==> mark.value <= p) && now.held == ""
    && now.(held := Marked(data, mark, p)) == Fold(s, data[..p]) && Valid(Fold(s, data[..p]))
  }

  /** The cursor has moved over `k` bytes. */
  lemma Advance(s: Parser, data: string, p: nat, k: nat)
    requires p + k <= |data|
    ensures Fold(s, data[..p + k]) == Fold(Fold(s, data[..p]), data[p..p + k])
  {
    hide Fold;
    FoldSplits(s, data[..p], data[p..p + k]);
    assert data[..p] + data[p..p + k] == data[..p + k];
  }

  lemma AdvanceOne(s: Parser, data: string, p: nat)
    requires p < |data| && Valid(Fold(s, data[..p]))
    ensures Fold(s, data[..p + 1]) == Step(Fold(s, data[..p]), data[p]) && Valid(Fold(s, data[..p + 1]))
  {
    hide Step, Valid;
    Advance(s, data, p, 1);
    var t := Fold(s, data[..p]);
    assert data[p..p + 1] == [data[p]] && [data[p]][1..] == "";
    assert Fold(t, [data[p]]) == Fold(Step(t, data[p]), "");
    StepValid(t, data[p]);
  }

  function Min(a: nat, b: nat): nat {
    if a < b then a else b
  }

  /** The mark after a block was read from `start`: MARK keeps one that is set. */
  function SetMark(mark: Option<nat>, start: nat): Option<nat> {
    if mark.Some? then mark else Some(start)
  }

  lemma MarkGrows(data: string, mark: Option<nat>, start: nat, p: nat)
    requires start <= p <= |data| && (mark.Some? ==> mark.value <= start)
    ensures Marked(data, SetMark(mark, start), p) == Marked(data, mark, start) + data[start..p]
  {}

  /** s_chunk_data and s_body_identity: as many bytes as are there, or as are still missing. */
  method ReadBlock(ghost s: Parser, now0: Parser, data: string, mark0: Option<nat>, start: nat)
    returns (now: Parser, mark: Option<nat>, p: nat)
    requires InStep(s, data, now0, mark0, start) && start < |data| && (now0.phase.ChunkData? || now0.phase.BodyIdentity?)
    ensures InStep(s, data, now, mark, p) && start < p
  {
    hide Fold, Marked;
    var toRead := Min(now0.length, |data| - start);
    p := start + toRead;
    Advance(s, data, start, toRead);
    ghost var t := Fold(s, data[..start]);
    FoldValid(t, data[start..p]);
    if now0.phase.ChunkData? {
      now, mark := ReadChunkData(t, now0, data, mark0, start, p);
    } else {
      now, mark := ReadIdentity(t, now0, data, mark0, start, p);
    }
  }

  method ReadChunkData(ghost t: Parser, now0: Parser, data: string, mark0: Option<nat>, start: nat, p: nat)
    returns (now: Parser, mark: Option<nat>)
    requires start < p <= |data| && (mark0.Some? ==> mark0.value <= start) && p - start <= now0.length
    requires now0.held == "" && t == now0.(held := Marked(data, mark0, start)) && now0.phase.ChunkData?
    ensures (mark.Some? ==> mark.value <= p) && now.held == ""
    ensures now.(held := Marked(data, mark, p)) == Fold(t, data[start..p])
  {
    hide Fold, Marked;
    mark := SetMark(mark0, start);
    MarkGrows(data, mark0, start, p);
    DataRead(t, data[start..p]);
    now := now0.(length := now0.length - (p - start));
    if now.length == 0 { now := now.(phase := ChunkDataAlmostDone); }
  }

  method ReadIdentity(ghost t: Parser, now0: Parser, data: string, mark0: Option<nat>, start: nat, p: nat)
    returns (now: Parser, mark: Option<nat>)
    requires start < p <= |data| && (mark0.Some? ==> mark0.value <= start) && p - start <= now0.length
    requires now0.held == "" && t == now0.(held := Marked(data, mark0, start)) && now0.phase.BodyIdentity?
    ensures (mark.Some? ==> mark.value <= p) && now.held == ""
    ensures now.(held := Marked(data, mark, p)) == Fold(t, data[start..p])
  {
    hide Fold;
    mark := SetMark(mark0, start);
    MarkGrows(data, mark0, start, p);
    now := now0.(length := now0.length - (p - start));
    if now.length == 0 {
      IdentityRead(t, data[start..p]);
      assert now.body + Marked(data, mark0, start) + data[start..p] == now.body + Marked(data, mark, p);
      now := now.(body := now.body + data[mark.value..p]);
      mark := None;
      now := now.(phase := Over, completes := now.completes + 1);
    } else {
      IdentityPart(t, data[start..p]);
    }
  }

  /** The states that read a size line, the line ends and the empty trailer. */
  method ReadFrame(now0: Parser, ch: char) returns (now: Parser)
    requires !now0.phase.ChunkData? && !now0.phase.BodyIdentity? && !now0.phase.ChunkDataAlmostDone? && now0.held == "" && !now0.phase.Failed?
    ensures now == Step(now0, ch) && now.held == ""
  {
    now := now0;
    if InHeader(now.phase) {
      now := now.(nread := now.nread + 1);
      if now.nread > HTTP_MAX_HEADER_SIZE { return Fail(now, HeaderOverflow); }
    }
    var unhex := HexValue(ch);
    match now.phase {
      case ChunkSizeStart =>
        if unhex == -1 { return Fail(now, InvalidChunkSize); }
        now := now.(length := unhex, phase := ChunkSize);
      case ChunkSize =>
        if ch == '\r' { return now.(phase := ChunkSizeAlmostDone); }
        if unhex == -1 {
          if ch == ';' || ch == ' ' { return now.(phase := ChunkParameters); }
          return Fail(now, InvalidChunkSize);
        }
        if (ULLONG_MAX - 16) / 16 < now.length { return Fail(now, InvalidContentLength); }
        now := now.(length := 16 * now.length + unhex);
      case ChunkParameters => if ch == '\r' { now := now.(phase := ChunkSizeAlmostDone); }
      case ChunkSizeAlmostDone =>
        if now.strict && ch != '\n' { return Fail(now, Strict); }
        now := now.(nread := 0);
        if now.length == 0 { now := now.(phase := TrailerStart); } else { now := now.(phase := ChunkData); }
      case ChunkDataDone =>
        if now.strict && ch != '\n' { return Fail(now, Strict); }
        now := now.(nread := 0, phase := ChunkSizeStart);
      case TrailerStart =>
        if ch == '\r' { return now.(phase := TrailerAlmostDone); }
        if ch == '\n' { return Complete(now); }
        now := now.(phase := TrailerField);
      case TrailerAlmostDone =>
        if now.strict && ch != '\n' { return Fail(now, Strict); }
        now := Complete(now);
      case _ =>
    }
  }

  /** One turn of the byte loop. */
  method Turn(ghost s: Parser, now0: Parser, data: string, mark0: Option<nat>, start: nat)
    returns (now: Parser, mark: Option<nat>, p: nat)
    requires InStep(s, data, now0, mark0, start) && start < |data| && !now0.phase.Failed?
    ensures InStep(s, data, now, mark, p) && start < p
  {
    hide Fold, Step;
    if now0.phase.ChunkData? || now0.phase.BodyIdentity? {
      now, mark, p := ReadBlock(s, now0, data, mark0, start);
    } else {
      AdvanceOne(s, data, start);
      p, mark := start + 1, None;
      if now0.phase.ChunkDataAlmostDone? {
        now := EndOfData(now0, data, mark0, start);
      } else {
        now := ReadFrame(now0, data[start]);
      }
    }
  }

  /** s_chunk_data_almost_done: the CR hands the marked bytes over; in a strict build anything else drops them. */
  method EndOfData(now0: Parser, data: string, mark: Option<nat>, p: nat) returns (now: Parser)
    requires p < |data| && (mark.Some? ==> mark.value <= p) && now0.phase.ChunkDataAlmostDone? && now0.held == ""
    ensures now == Step(now0.(held := Marked(data, mark, p)), data[p]) && now.held == ""
  {
    now := now0;
    if now.strict && data[p] != '\r' { return Fail(now, Strict); }
    now := now.(phase := ChunkDataDone);
    if mark.Some? { now := now.(body := now.body + data[mark.value..p]); } else { assert now.body + "" == now.body; }
  }

  class HttpParser {
    var now: Parser

    method Execute(data: string)
      requires Valid(now) && now.held == ""
      modifies this
      ensures now == HttpBody.Execute(old(now), data) && Valid(now) && now.held == ""
    {
      hide Fold, Valid;
      if now.phase.Failed? { return; }
      ExecuteValid(now, data);
      if data == "" {
        if !now.phase.Over? { now := now.(phase := Failed(InvalidEofState)); }
        return;
      }
      ghost var s := now;
      var mark: Option<nat>, p: nat := None, 0;
      Begin(now, data);
      while p < |data| && !now.phase.Failed?
        invariant InStep(s, data, now, mark, p)
        decreases |data| - p
      {
        var next, m, q := Turn(s, now, data, mark, p);
        now, mark, p := next, m, q;
      }
      Finish(s, data, now, mark, p);
      if mark.Some? { now := now.(body := now.body + data[mark.value..p]); }
    }
  }

  lemma Begin(s: Parser, data: string)
    requires Valid(s) && s.held == ""
    ensures InStep(s, data, s, None, 0)
  {
    assert data[..0] == "";
  }

  /** The loop ends at the end of the buffer or with an error, which drops the mark. */
  lemma Finish(s: Parser, data: string, now: Parser, mark: Option<nat>, p: nat)
    requires InStep(s, data, now, mark, p) && (p == |data| || now.phase.Failed?)
    ensures Flush(Fold(s, data)) == now.(body := now.body + Marked(data, mark, p))
    ensures mark.None? ==> now.body + Marked(data, mark, p) == now.body
    ensures Valid(Flush(Fold(s, data)))
  {
    hide Fold;
    Advance(s, data, p, |data| - p);
    assert data[..|data|] == data && data[p..|data|] == data[p..];
    var t := Fold(s, data[..p]);
    if p == |data| {
      assert data[..p] == data;
    } else {
      FailedStays(t, data[p..]);
    }
  }
}
