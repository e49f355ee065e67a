/**
 One stored message: how it is laid out in a data file and how a position of a
 data file is checked for a message.
 */
module Frame {
  import opened Bytes
  import Crc16

  const MAGIC1: byte := 0xFE
  const MAGIC2: byte := 0xAC
  const HEAD_LEN: nat := 12

  /** Data files never exceed 64 MiB. */
  const MAX_FILE: nat := 0x400_0000

  datatype Message = Message(delay: u32, body: seq<byte>)

  /** A message whose length fits the length field. */
  predicate Storable(m: Message) {
    |m.body| < MAX_FILE
  }

  function Head(m: Message): (h: seq<byte>)
    requires Storable(m)
    ensures |h| == HEAD_LEN
  {
    [MAGIC1, MAGIC2] + Le32(m.delay) + Le16(Crc16.Crc(m.body)) + Le32(|m.body|)
  }

  function Encode(m: Message): (f: seq<byte>)
    requires Storable(m)
    ensures |f| == HEAD_LEN + |m.body|
  {
    Head(m) + m.body
  }

  datatype Check = Ok(msg: Message) | MagicErr | CrcErr | LenBeyond

  /** The checks on the message that may start at `pos`; sums wrap at 32 bits. */
  function ParseMsg(file: seq<byte>, pos: nat): Check
    requires |file| <= MAX_FILE && pos <= |file|
  {
    if pos + HEAD_LEN >= |file| then LenBeyond
    else if file[pos] != MAGIC1 || file[pos + 1] != MAGIC2 then MagicErr
    else
      var len := Get32(file, pos + 8);
      if (pos + len + HEAD_LEN) % U32 > |file| then LenBeyond
      else if len >= 0x8000_0000 then CrcErr // negative as a signed length
      else
        var body := file[pos + HEAD_LEN..pos + HEAD_LEN + len];
        if Crc16.Crc(body) == Get16(file, pos + 6) then Ok(Message(Get32(file, pos + 2), body))
        else CrcErr
  }

  /** `m` lies complete at `pos`. */
  predicate StoredAt(file: seq<byte>, pos: nat, m: Message) {
    Storable(m) && pos + HEAD_LEN + |m.body| <= |file| &&
    file[pos..pos + HEAD_LEN + |m.body|] == Encode(m)
  }

  /** A byte string is its magic number, three fields and a body put together. */
  lemma FiveParts(f: seq<byte>, magic: seq<byte>, delay: seq<byte>, crc: seq<byte>, len: seq<byte>, body: seq<byte>)
    requires |magic| == 2 && |delay| == 4 && |crc| == 2 && |len| == 4 && |f| == 12 + |body|
    ensures f == magic + delay + crc + len + body <==>
            f[..2] == magic && f[2..6] == delay && f[6..8] == crc && f[8..12] == len && f[12..] == body
  {
    var h := magic + delay + crc + len;
    assert f == f[..12] + f[12..];
    assert f[..12] == f[..2] + f[2..6] + f[6..8] + f[8..12];
    assert h[..2] == magic && h[2..6] == delay && h[6..8] == crc && h[8..12] == len;
    if f == h + body {
      assert f[..12] == h && f[12..] == body;
      assert f[..2] == h[..2] && f[2..6] == h[2..6] && f[6..8] == h[6..8] && f[8..12] == h[8..12];
    }
  }

  lemma SliceOfSlice(s: seq<byte>, p: nat, n: nat, a: nat, b: nat)
    requires p + n <= |s| && a <= b <= n
    ensures s[p..p + n][a..b] == s[p + a..p + b]
  {
    var t, u := s[p..p + n][a..b], s[p + a..p + b];
    forall i | 0 <= i < b - a ensures t[i] == u[i] {}
  }

  lemma EncodedFields(file: seq<byte>, pos: nat, m: Message)
    requires Storable(m) && pos + HEAD_LEN + |m.body| <= |file|
    ensures StoredAt(file, pos, m) <==>
            && file[pos..pos + 2] == [MAGIC1, MAGIC2]
            && file[pos + 2..pos + 6] == Le32(m.delay)
            && file[pos + 6..pos + 8] == Le16(Crc16.Crc(m.body))
            && file[pos + 8..pos + 12] == Le32(|m.body|)
            && file[pos + 12..pos + 12 + |m.body|] == m.body
  {
    hide Crc16.Crc, Le32, Le16;
    var f := file[pos..pos + HEAD_LEN + |m.body|];
    FiveParts(f, [MAGIC1, MAGIC2], Le32(m.delay), Le16(Crc16.Crc(m.body)), Le32(|m.body|), m.body);
    SliceOfSlice(file, pos, |f|, 0, 2);
    SliceOfSlice(file, pos, |f|, 2, 6);
    SliceOfSlice(file, pos, |f|, 6, 8);
    SliceOfSlice(file, pos, |f|, 8, 12);
    SliceOfSlice(file, pos, |f|, 12, |f|);
  }

  lemma MagicAt(file: seq<byte>, pos: nat)
    requires pos + 2 <= |file|
    ensures file[pos..pos + 2] == [MAGIC1, MAGIC2] <==> file[pos] == MAGIC1 && file[pos + 1] == MAGIC2
  {
    var f := file[pos..pos + 2];
    assert f[0] == file[pos] && f[1] == file[pos + 1];
  }

  /**
   The check succeeds with `m` exactly when `m` is stored at `pos`; only an
   empty body flush with the end of the file is passed over.
   */
  lemma ParseExact(file: seq<byte>, pos: nat, m: Message)
    requires |file| <= MAX_FILE && pos <= |file|
    ensures ParseMsg(file, pos) == Ok(m) <==> StoredAt(file, pos, m) && pos + HEAD_LEN < |file|
  {
    hide Crc16.Crc, Get16, Get32, Le16, Le32, Encode;
    if pos + HEAD_LEN < |file| {
      var len := Get32(file, pos + 8);
      if pos + HEAD_LEN + |m.body| <= |file| {
        EncodedFields(file, pos, m);
        MagicAt(file, pos);
        Field32(file, pos + 2, m.delay);
        Field16(file, pos + 6, Crc16.Crc(m.body));
        Field32(file, pos + 8, |m.body|);
      }
    }
  }

  /** The check as the code runs it, with the checksum loop. */
  method CheckMsg(file: seq<byte>, pos: nat) returns (c: Check)
    requires |file| <= MAX_FILE && pos <= |file|
    ensures c == ParseMsg(file, pos)
  {
    hide Crc16.Remainder, Get16, Get32;
    if pos + HEAD_LEN >= |file| { return LenBeyond; }
    if file[pos] != MAGIC1 || file[pos + 1] != MAGIC2 { return MagicErr; }
    var len := Get32(file, pos + 8);
    if (pos + len + HEAD_LEN) % U32 > |file| { return LenBeyond; }
    if len >= 0x8000_0000 { return CrcErr; }
    var body := file[pos + HEAD_LEN..pos + HEAD_LEN + len];
    var crc := Crc16.Crc16Append(body);
    if crc as nat == Get16(file, pos + 6) { return Ok(Message(Get32(file, pos + 2), body)); }
    c := CrcErr;
  }

  /** A stored message damaged within two adjacent bytes of its body is never delivered. */
  lemma DamagedBodyRejected(file: seq<byte>, damaged: seq<byte>, pos: nat, m: Message, k: nat)
    requires |damaged| == |file| <= MAX_FILE && pos <= |file|
    requires ParseMsg(file, pos) == Ok(m) && k < |m.body|
    requires var p := pos + HEAD_LEN + k;
             && (forall i | 0 <= i < |file| && i != p && i != p + 1 :: damaged[i] == file[i])
             && (k + 1 == |m.body| && p + 1 < |file| ==> damaged[p + 1] == file[p + 1])
    requires damaged != file
    ensures ParseMsg(damaged, pos) == CrcErr
  {
    hide Crc16.Crc, Get16, Get32, Encode;
    ParseExact(file, pos, m);
    EncodedFields(file, pos, m);
    MagicAt(file, pos);
    Field16(file, pos + 6, Crc16.Crc(m.body));
    Field32(file, pos + 8, |m.body|);
    var b := pos + HEAD_LEN;
    var body := damaged[b..b + |m.body|];
    SameFields(file, damaged, pos);
    assert body != m.body by {
      var i :| 0 <= i < |file| && damaged[i] != file[i];
      assert body[i - b] != file[b..b + |m.body|][i - b];
    }
    Crc16.BurstDetected(m.body, body, k);
  }

  lemma SameFields(file: seq<byte>, damaged: seq<byte>, pos: nat)
    requires |damaged| == |file| && pos + HEAD_LEN <= |file|
    requires forall i | pos <= i < pos + HEAD_LEN :: damaged[i] == file[i]
    ensures Get16(damaged, pos + 6) == Get16(file, pos + 6) && Get32(damaged, pos + 8) == Get32(file, pos + 8)
    ensures damaged[pos] == file[pos] && damaged[pos + 1] == file[pos + 1]
  {}
}
