/**
 The 16-bit cyclic redundancy check that guards every stored message: the
 table-driven loop, the bit-by-bit division it stands for, and what the check
 is able to detect.
 */
module Crc16 {
  import opened Bytes

  /** The remainder table, sixteen entries a case. */
  function Entry(i: bv16): bv16
    requires i < 256
  {
    match i >> 4
    case 0 => (match i & 15
      case 0 => 0x0000 case 1 => 0xC0C1 case 2 => 0xC181 case 3 => 0x0140 case 4 => 0xC301 case 5 => 0x03C0 case 6 => 0x0280 case 7 => 0xC241
      case 8 => 0xC601 case 9 => 0x06C0 case 10 => 0x0780 case 11 => 0xC741 case 12 => 0x0500 case 13 => 0xC5C1 case 14 => 0xC481 case _ => 0x0440)
    case 1 => (match i & 15
      case 0 => 0xCC01 case 1 => 0x0CC0 case 2 => 0x0D80 case 3 => 0xCD41 case 4 => 0x0F00 case 5 => 0xCFC1 case 6 => 0xCE81 case 7 => 0x0E40
      case 8 => 0x0A00 case 9 => 0xCAC1 case 10 => 0xCB81 case 11 => 0x0B40 case 12 => 0xC901 case 13 => 0x09C0 case 14 => 0x0880 case _ => 0xC841)
    case 2 => (match i & 15
      case 0 => 0xD801 case 1 => 0x18C0 case 2 => 0x1980 case 3 => 0xD941 case 4 => 0x1B00 case 5 => 0xDBC1 case 6 => 0xDA81 case 7 => 0x1A40
      case 8 => 0x1E00 case 9 => 0xDEC1 case 10 => 0xDF81 case 11 => 0x1F40 case 12 => 0xDD01 case 13 => 0x1DC0 case 14 => 0x1C80 case _ => 0xDC41)
    case 3 => (match i & 15
      case 0 => 0x1400 case 1 => 0xD4C1 case 2 => 0xD581 case 3 => 0x1540 case 4 => 0xD701 case 5 => 0x17C0 case 6 => 0x1680 case 7 => 0xD641
      case 8 => 0xD201 case 9 => 0x12C0 case 10 => 0x1380 case 11 => 0xD341 case 12 => 0x1100 case 13 => 0xD1C1 case 14 => 0xD081 case _ => 0x1040)
    case 4 => (match i & 15
      case 0 => 0xF001 case 1 => 0x30C0 case 2 => 0x3180 case 3 => 0xF141 case 4 => 0x3300 case 5 => 0xF3C1 case 6 => 0xF281 case 7 => 0x3240
      case 8 => 0x3600 case 9 => 0xF6C1 case 10 => 0xF781 case 11 => 0x3740 case 12 => 0xF501 case 13 => 0x35C0 case 14 => 0x3480 case _ => 0xF441)
    case 5 => (match i & 15
      case 0 => 0x3C00 case 1 => 0xFCC1 case 2 => 0xFD81 case 3 => 0x3D40 case 4 => 0xFF01 case 5 => 0x3FC0 case 6 => 0x3E80 case 7 => 0xFE41
      case 8 => 0xFA01 case 9 => 0x3AC0 case 10 => 0x3B80 case 11 => 0xFB41 case 12 => 0x3900 case 13 => 0xF9C1 case 14 => 0xF881 case _ => 0x3840)
    case 6 => (match i & 15
      case 0 => 0x2800 case 1 => 0xE8C1 case 2 => 0xE981 case 3 => 0x2940 case 4 => 0xEB01 case 5 => 0x2BC0 case 6 => 0x2A80 case 7 => 0xEA41
      case 8 => 0xEE01 case 9 => 0x2EC0 case 10 => 0x2F80 case 11 => 0xEF41 case 12 => 0x2D00 case 13 => 0xEDC1 case 14 => 0xEC81 case _ => 0x2C40)
    case 7 => (match i & 15
      case 0 => 0xE401 case 1 => 0x24C0 case 2 => 0x2580 case 3 => 0xE541 case 4 => 0x2700 case 5 => 0xE7C1 case 6 => 0xE681 case 7 => 0x2640
      case 8 => 0x2200 case 9 => 0xE2C1 case 10 => 0xE381 case 11 => 0x2340 case 12 => 0xE101 case 13 => 0x21C0 case 14 => 0x2080 case _ => 0xE041)
    case 8 => (match i & 15
      case 0 => 0xA001 case 1 => 0x60C0 case 2 => 0x6180 case 3 => 0xA141 case 4 => 0x6300 case 5 => 0xA3C1 case 6 => 0xA281 case 7 => 0x6240
      case 8 => 0x6600 case 9 => 0xA6C1 case 10 => 0xA781 case 11 => 0x6740 case 12 => 0xA501 case 13 => 0x65C0 case 14 => 0x6480 case _ => 0xA441)
    case 9 => (match i & 15
      case 0 => 0x6C00 case 1 => 0xACC1 case 2 => 0xAD81 case 3 => 0x6D40 case 4 => 0xAF01 case 5 => 0x6FC0 case 6 => 0x6E80 case 7 => 0xAE41
      case 8 => 0xAA01 case 9 => 0x6AC0 case 10 => 0x6B80 case 11 => 0xAB41 case 12 => 0x6900 case 13 => 0xA9C1 case 14 => 0xA881 case _ => 0x6840)
    case 10 => (match i & 15
      case 0 => 0x7800 case 1 => 0xB8C1 case 2 => 0xB981 case 3 => 0x7940 case 4 => 0xBB01 case 5 => 0x7BC0 case 6 => 0x7A80 case 7 => 0xBA41
      case 8 => 0xBE01 case 9 => 0x7EC0 case 10 => 0x7F80 case 11 => 0xBF41 case 12 => 0x7D00 case 13 => 0xBDC1 case 14 => 0xBC81 case _ => 0x7C40)
    case 11 => (match i & 15
      case 0 => 0xB401 case 1 => 0x74C0 case 2 => 0x7580 case 3 => 0xB541 case 4 => 0x7700 case 5 => 0xB7C1 case 6 => 0xB681 case 7 => 0x7640
      case 8 => 0x7200 case 9 => 0xB2C1 case 10 => 0xB381 case 11 => 0x7340 case 12 => 0xB101 case 13 => 0x71C0 case 14 => 0x7080 case _ => 0xB041)
    case 12 => (match i & 15
      case 0 => 0x5000 case 1 => 0x90C1 case 2 => 0x9181 case 3 => 0x5140 case 4 => 0x9301 case 5 => 0x53C0 case 6 => 0x5280 case 7 => 0x9241
      case 8 => 0x9601 case 9 => 0x56C0 case 10 => 0x5780 case 11 => 0x9741 case 12 => 0x5500 case 13 => 0x95C1 case 14 => 0x9481 case _ => 0x5440)
    case 13 => (match i & 15
      case 0 => 0x9C01 case 1 => 0x5CC0 case 2 => 0x5D80 case 3 => 0x9D41 case 4 => 0x5F00 case 5 => 0x9FC1 case 6 => 0x9E81 case 7 => 0x5E40
      case 8 => 0x5A00 case 9 => 0x9AC1 case 10 => 0x9B81 case 11 => 0x5B40 case 12 => 0x9901 case 13 => 0x59C0 case 14 => 0x5880 case _ => 0x9841)
    case 14 => (match i & 15
      case 0 => 0x8801 case 1 => 0x48C0 case 2 => 0x4980 case 3 => 0x8941 case 4 => 0x4B00 case 5 => 0x8BC1 case 6 => 0x8A81 case 7 => 0x4A40
      case 8 => 0x4E00 case 9 => 0x8EC1 case 10 => 0x8F81 case 11 => 0x4F40 case 12 => 0x8D01 case 13 => 0x4DC0 case 14 => 0x4C80 case _ => 0x8C41)
    case _ => (match i & 15
      case 0 => 0x4400 case 1 => 0x84C1 case 2 => 0x8581 case 3 => 0x4540 case 4 => 0x8701 case 5 => 0x47C0 case 6 => 0x4680 case 7 => 0x8641
      case 8 => 0x8201 case 9 => 0x42C0 case 10 => 0x4380 case 11 => 0x8341 case 12 => 0x4100 case 13 => 0x81C1 case 14 => 0x8081 case _ => 0x4040)
  }

  // The register operations have names so that proofs can treat them as plain functions.

  function Xor(c: bv16, d: bv16): bv16 { c ^ d }

  function High(c: bv16): bv16 { c >> 8 }

  function Low(c: bv16): (r: bv16)
    ensures r < 256
  {
    c & 0xff
  }

  function Wide(b: bv8): bv16 { b as bv16 }

  /** One step of the reflected division by 0xA001. */
  function DivideBit(c: bv16): bv16 {
    if c & 1 == 1 then (c >> 1) ^ 0xA001 else c >> 1
  }

  function DivideByte(c: bv16): bv16 {
    DivideBit(DivideBit(DivideBit(DivideBit(DivideBit(DivideBit(DivideBit(DivideBit(c))))))))
  }

  /** Feeds `data` through a register that takes in a byte and divides it out one bit at a time. */
  function Remainder(data: seq<bv8>): bv16 {
    if data == [] then 0
    else DivideByte(Xor(Remainder(data[..|data| - 1]), Wide(data[|data| - 1])))
  }

  function ToBits(b: byte): bv8 {
    Join((b / 16) as bv4, (b % 16) as bv4)
  }

  function Join(high: bv4, low: bv4): bv8 { ((high as bv8) << 4) | (low as bv8) }

  function Bits(data: seq<byte>): (bits: seq<bv8>)
    ensures |bits| == |data|
  {
    seq(|data|, i requires 0 <= i < |data| => ToBits(data[i]))
  }

  /** The checksum as the 16-bit number that is stored in a message head. */
  function Crc(data: seq<byte>): (crc: nat)
    ensures crc < 0x10000
  {
    Remainder(Bits(data)) as nat
  }

  // ---- the table is the division ----

  function Parity(i: bv16): bv16 {
    var a := i ^ (i >> 4);
    var b := a ^ (a >> 2);
    (b ^ (b >> 1)) & 1
  }

  /** What eight division steps leave of a single byte. */
  function ByteRemainder(i: bv16): bv16 {
    (if Parity(i) == 1 then 0xC001 else 0) ^ (i << 6) ^ (i << 7)
  }

  lemma EntryIsByteRemainder(i: bv16)
    requires i < 256
    ensures Entry(i) == ByteRemainder(i)
  {}

  lemma DivideByteSplits(x: bv16)
    ensures DivideByte(x) == Xor(High(x), ByteRemainder(Low(x)))
  {}

  lemma HighUntouched(c: bv16, b: bv8)
    ensures High(Xor(c, Wide(b))) == High(c)
  {}

  /** A table step is eight division steps. */
  lemma TableStep(c: bv16, b: bv8)
    ensures Xor(High(c), Entry(Low(Xor(c, Wide(b))))) == DivideByte(Xor(c, Wide(b)))
  {
    hide *;
    var x := Xor(c, Wide(b));
    HighUntouched(c, b);
    EntryIsByteRemainder(Low(x));
    DivideByteSplits(x);
  }

  /** The table loop of crc16_append computes the division remainder. */
  method Crc16Append(data: seq<byte>) returns (crc: bv16)
    ensures crc == Remainder(Bits(data))
  {
    hide DivideByte, Xor, High, Low, Wide, Entry, ToBits;
    crc := 0;
    var i := 0;
    ghost var bits := Bits(data);
    while i < |data|
      invariant 0 <= i <= |data|
      invariant crc == Remainder(bits[..i])
    {
      var b := ToBits(data[i]);
      TableStep(crc, b);
      assert bits[..i + 1][..i] == bits[..i];
      crc := Xor(High(crc), Entry(Low(Xor(crc, Wide(b)))));
      i := i + 1;
    }
    assert bits[..i] == bits;
  }

  // ---- error detection ----

  lemma DivideByteInjective(c: bv16, d: bv16)
    requires DivideByte(c) == DivideByte(d)
    ensures c == d
  {}

  lemma XorCancels(c: bv16, d: bv16, x: bv16)
    requires Xor(c, x) == Xor(d, x)
    ensures c == d
  {}

  lemma WideCancels(c: bv16, x: bv8, y: bv8)
    requires Xor(c, Wide(x)) == Xor(c, Wide(y))
    ensures x == y
  {}

  lemma HighOfDividend(z: bv16)
    ensures High(DivideByte(z)) == High(ByteRemainder(Low(z)))
  {}

  lemma HighIdentifiesByte(u: bv16, v: bv16)
    requires u < 256 && v < 256
    requires High(ByteRemainder(u)) == High(ByteRemainder(v))
    ensures u == v
  {}

  lemma HighOfSum(p: bv16, x: bv8, q: bv16, y: bv8)
    requires Xor(p, Wide(x)) == Xor(q, Wide(y))
    ensures High(p) == High(q)
  {}

  lemma LowOfSum(c: bv16, x: bv8, y: bv8)
    requires Low(Xor(c, Wide(x))) == Low(Xor(c, Wide(y)))
    ensures x == y
  {}

  /** Two bytes fed into the same register are recoverable from the result. */
  lemma TwoBytesRecoverable(c: bv16, x: bv8, y: bv8, x': bv8, y': bv8)
    requires Xor(DivideByte(Xor(c, Wide(x))), Wide(y)) == Xor(DivideByte(Xor(c, Wide(x'))), Wide(y'))
    ensures x == x' && y == y'
  {
    hide *;
    var z, z' := Xor(c, Wide(x)), Xor(c, Wide(x'));
    HighOfSum(DivideByte(z), y, DivideByte(z'), y');
    HighOfDividend(z);
    HighOfDividend(z');
    HighIdentifiesByte(Low(z), Low(z'));
    LowOfSum(c, x, x');
    WideCancels(DivideByte(z), y, y');
  }

  lemma RemainderStep(data: seq<bv8>, k: nat)
    requires k < |data|
    ensures Remainder(data[..k + 1]) == DivideByte(Xor(Remainder(data[..k]), Wide(data[k])))
  {
    hide DivideByte, Xor, Wide;
    assert data[..k + 1][..k] == data[..k];
  }

  /** Once two registers differ, equal bytes keep them different. */
  lemma {:induction false} DifferenceSurvives(a: seq<bv8>, b: seq<bv8>, k: nat, n: nat)
    requires k <= n <= |a| == |b|
    requires Remainder(a[..k]) != Remainder(b[..k])
    requires forall i | k <= i < |a| :: a[i] == b[i]
    ensures Remainder(a[..n]) != Remainder(b[..n])
    decreases n
  {
    hide *;
    if k < n {
      DifferenceSurvives(a, b, k, n - 1);
      RemainderStep(a, n - 1);
      RemainderStep(b, n - 1);
      var c, d, x := Remainder(a[..n - 1]), Remainder(b[..n - 1]), Wide(a[n - 1]);
      if Remainder(a[..n]) == Remainder(b[..n]) {
        DivideByteInjective(Xor(c, x), Xor(d, x));
        XorCancels(c, d, x);
      }
    }
  }

  lemma OneByteDamage(a: seq<bv8>, b: seq<bv8>, k: nat)
    requires |a| == |b| && k < |a|
    requires a[..k] == b[..k] && a[k] != b[k]
    ensures Remainder(a[..k + 1]) != Remainder(b[..k + 1])
  {
    hide *;
    RemainderStep(a, k);
    RemainderStep(b, k);
    var c := Remainder(a[..k]);
    if Remainder(a[..k + 1]) == Remainder(b[..k + 1]) {
      DivideByteInjective(Xor(c, Wide(a[k])), Xor(c, Wide(b[k])));
      WideCancels(c, a[k], b[k]);
    }
  }

  lemma TwoByteDamage(a: seq<bv8>, b: seq<bv8>, k: nat)
    requires |a| == |b| && k + 1 < |a|
    requires a[..k] == b[..k] && (a[k] != b[k] || a[k + 1] != b[k + 1])
    ensures Remainder(a[..k + 2]) != Remainder(b[..k + 2])
  {
    hide *;
    RemainderStep(a, k);
    RemainderStep(b, k);
    RemainderStep(a, k + 1);
    RemainderStep(b, k + 1);
    if Remainder(a[..k + 2]) == Remainder(b[..k + 2]) {
      DivideByteInjective(Xor(Remainder(a[..k + 1]), Wide(a[k + 1])), Xor(Remainder(b[..k + 1]), Wide(b[k + 1])));
      TwoBytesRecoverable(Remainder(a[..k]), a[k], a[k + 1], b[k], b[k + 1]);
    }
  }

  lemma NibbleRoundTrip(n: nat)
    requires n < 16
    ensures (n as bv4) as nat == n
  {}

  lemma JoinInjective(h: bv4, l: bv4, h': bv4, l': bv4)
    requires Join(h, l) == Join(h', l')
    ensures h == h' && l == l'
  {}

  lemma ToBitsInjective(b: byte, c: byte)
    requires ToBits(b) == ToBits(c)
    ensures b == c
  {
    hide Join;
    JoinInjective((b / 16) as bv4, (b % 16) as bv4, (c / 16) as bv4, (c % 16) as bv4);
    NibbleRoundTrip(b / 16);
    NibbleRoundTrip(b % 16);
    NibbleRoundTrip(c / 16);
    NibbleRoundTrip(c % 16);
  }

  lemma SameBits(a: seq<byte>, b: seq<byte>, i: nat)
    requires i < |a| == |b|
    ensures Bits(a)[i] == Bits(b)[i] <==> a[i] == b[i]
  {
    hide ToBits;
    if Bits(a)[i] == Bits(b)[i] {
      ToBitsInjective(a[i], b[i]);
    }
  }

  lemma NumberIdentifiesRegister(c: bv16, d: bv16)
    requires c as nat == d as nat
    ensures c == d
  {
    assert (c as nat) as bv16 == c;
    assert (d as nat) as bv16 == d;
  }

  lemma BurstOfBits(s: seq<bv8>, t: seq<bv8>, k: nat)
    requires |s| == |t| && k < |s|
    requires s[k] != t[k] || (k + 1 < |s| && s[k + 1] != t[k + 1])
    requires forall i | 0 <= i < |s| && i != k && i != k + 1 :: s[i] == t[i]
    ensures Remainder(s) != Remainder(t)
  {
    hide *;
    assert s[..|s|] == s && t[..|t|] == t;
    assert s[..k] == t[..k];
    if k + 1 == |s| {
      OneByteDamage(s, t, k);
    } else {
      TwoByteDamage(s, t, k);
      DifferenceSurvives(s, t, k + 2, |s|);
    }
  }

  /** Damage confined to two adjacent bytes always changes the checksum. */
  lemma BurstDetected(a: seq<byte>, b: seq<byte>, k: nat)
    requires |a| == |b| && k < |a|
    requires a != b
    requires forall i | 0 <= i < |a| && i != k && i != k + 1 :: a[i] == b[i]
    ensures Crc(a) != Crc(b)
  {
    hide *;
    forall i | 0 <= i < |a|
      ensures Bits(a)[i] == Bits(b)[i] <==> a[i] == b[i]
    {
      SameBits(a, b, i);
    }
    BurstOfBits(Bits(a), Bits(b), k);
    CrcIdentifiesRemainder(a, b);
  }

  lemma CrcIdentifiesRemainder(a: seq<byte>, b: seq<byte>)
    ensures Crc(a) == Crc(b) ==> Remainder(Bits(a)) == Remainder(Bits(b))
  {
    hide Bits, Remainder;
    if Crc(a) == Crc(b) {
      NumberIdentifiesRegister(Remainder(Bits(a)), Remainder(Bits(b)));
    }
  }
}
