/** The bit operations by which uthash finds a bucket and an average, and the arithmetic they stand for. */
module HashBits {

  function Pow2(k: nat): (p: nat)
    ensures p > 0
  {
    if k == 0 then 1 else 2 * Pow2(k - 1)
  }

  /** Bitwise and of two naturals, from the lowest bit. */
  function And(a: nat, b: nat): nat
    decreases a
  {
    if a == 0 || b == 0 then 0 else 2 * And(a / 2, b / 2) + (if a % 2 == 1 && b % 2 == 1 then 1 else 0)
  }

  /** The shift to the right by `k` bits. */
  function Shr(a: nat, k: nat): nat {
    if k == 0 then a else Shr(a / 2, k - 1)
  }

  /** HASH_TO_BKT. */
  function ToBucket(hashv: nat, size: nat): nat
    requires size > 0
  {
    And(hashv, size - 1)
  }

  lemma HalfOf(a: nat, p: nat)
    requires p > 0
    ensures a % (2 * p) == 2 * (a / 2 % p) + a % 2 && a / (2 * p) == a / 2 / p
  {
    var h := a / 2;
    Unique(a, 2 * p, h / p, 2 * (h % p) + a % 2);
  }

  lemma {:induction false} Further(x: nat, q: nat, d: nat)
    requires x < q
    ensures q * d >= x * d + d
    decreases q
  {
    assert q * d == (q - 1) * d + d;
    if x < q - 1 { Further(x, q - 1, d); }
  }

  /** Quotient and remainder are determined. */
  lemma SameParts(d: nat, x: nat, y: nat, q: nat, r: nat)
    requires x * d + y == q * d + r && y < d && r < d
    ensures x == q && y == r
  {
    if x < q {
      Further(x, q, d);
    } else if q < x {
      Further(q, x, d);
    }
  }

  lemma Parts(a: nat, d: nat)
    requires d > 0
    ensures a == a / d * d + a % d
  {}

  lemma Unique(a: nat, d: nat, q: nat, r: nat)
    requires d > 0 && a == q * d + r && r < d
    ensures a / d == q && a % d == r
  {
    Parts(a, d);
    SameParts(d, a / d, a % d, q, r);
  }

  /** A mask of `k` ones keeps the remainder by the power of two. */
  lemma {:induction false} MaskIsRemainder(h: nat, k: nat)
    ensures And(h, Pow2(k) - 1) == h % Pow2(k)
    decreases k
  {
    if k > 0 {
      var p := Pow2(k - 1);
      HalfOf(h, p);
      MaskIsRemainder(h / 2, k - 1);
      assert (2 * p - 1) / 2 == p - 1;
      if h == 0 { assert h % (2 * p) == 0 by { Unique(0, 2 * p, 0, 0); } }
    }
  }

  /** A shift divides by the power of two. */
  lemma {:induction false} ShiftDivides(a: nat, k: nat)
    ensures Shr(a, k) == a / Pow2(k)
    decreases k
  {
    if k > 0 {
      HalfOf(a, Pow2(k - 1));
      ShiftDivides(a / 2, k - 1);
    }
  }

  /** In a table whose size is a power of two the bucket is the remainder of the hash value. */
  lemma BucketOfHash(hashv: nat, size: nat, log2: nat)
    requires size == Pow2(log2)
    ensures ToBucket(hashv, size) == hashv % size
  {
    MaskIsRemainder(hashv, log2);
  }

  /** The chain length that is ideal after doubling. */
  function Ideal(items: nat, size: nat, log2: nat): nat
    requires size > 0
  {
    Shr(items, log2 + 1) + (if And(items, size * 2 - 1) != 0 then 1 else 0)
  }

  /** It is the ceiling of items by buckets, and not zero once there is an item. */
  lemma IdealIsCeiling(items: nat, size: nat, log2: nat)
    requires size == Pow2(log2)
    ensures var d := 2 * size;
            var ideal := Ideal(items, size, log2);
            ideal * d >= items && (ideal == 0 || (ideal - 1) * d < items)
    ensures items > 0 ==> Ideal(items, size, log2) > 0
  {
    var d := 2 * size;
    assert d == Pow2(log2 + 1);
    ShiftDivides(items, log2 + 1);
    MaskIsRemainder(items, log2 + 1);
    Parts(items, d);
    Ceiling(items, d, items / d, items % d);
  }

  lemma Ceiling(items: nat, d: nat, q: nat, r: nat)
    requires items == q * d + r && r < d
    ensures r == 0 ==> (q == 0 || (q - 1) * d < items)
    ensures r != 0 ==> (q + 1) * d >= items && q * d < items
    ensures items > 0 ==> q > 0 || r != 0
  {
    assert (q + 1) * d == q * d + d;
    if q > 0 { Further(q - 1, q, d); }
  }
}
