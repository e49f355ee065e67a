/** A uthash table: its buckets, its items, and what HASH_FSCK checks. */
module HashTable {
  import opened HashBits
  import opened HashLinks

  const INITIAL_BUCKETS: nat := 32
  const CAPACITY: nat := 10

  datatype Bucket = Bucket(head: nat, count: nat, mult: nat)

  /** UT_hash_table together with the items it links; `head` is the application's list head. */
  datatype Table = Table(
    nodes: Nodes, head: nat, tail: nat, items: nat,
    buckets: seq<Bucket>, log2: nat, ideal: nat, nonideal: nat, ineffective: nat, noexpand: bool)

  /** No table exists before the first item is added and after the last one is deleted. */
  const NONE: Table := Table(map[], 0, 0, 0, [], 0, 0, 0, 0, false)

  /** The lists that the links stand for. */
  datatype View = View(order: seq<nat>, chains: seq<seq<nat>>)

  function Total(chains: seq<seq<nat>>): nat {
    if chains == [] then 0 else |chains[0]| + Total(chains[1..])
  }

  lemma {:induction false} TotalUpdate(chains: seq<seq<nat>>, b: nat, s: seq<nat>)
    requires b < |chains|
    ensures Total(chains[b := s]) == Total(chains) - |chains[b]| + |s|
  {
    if b == 0 {
      assert chains[0 := s][1..] == chains[1..];
    } else {
      TotalUpdate(chains[1..], b - 1, s);
      assert chains[b := s][1..] == chains[1..][b - 1 := s];
    }
  }

  /** `p` belongs into bucket `b` of `size`: the buckets are the residues of the hash values. */
  predicate Belongs(n: Nodes, p: nat, size: nat, b: nat)
    requires size > 0
  {
    p in n && n[p].hashv % size == b
  }

  /** A bucket holds exactly the items that belong there, linked both ways, and counts them. */
  ghost predicate BucketOk(n: Nodes, buckets: seq<Bucket>, chains: seq<seq<nat>>, b: nat)
    requires b < |buckets| == |chains|
  {
    && buckets[b].head == First(chains[b]) && buckets[b].count == |chains[b]|
    && Chained(n, chains[b]) && Distinct(chains[b])
    && forall p :: p in chains[b] <==> Belongs(n, p, |chains|, b)
  }

  ghost predicate BucketsOk(n: Nodes, buckets: seq<Bucket>, chains: seq<seq<nat>>) {
    |buckets| == |chains| > 0 && forall b | 0 <= b < |chains| :: BucketOk(n, buckets, chains, b)
  }

  /** The list in application order holds every item. */
  ghost predicate OrderOk(t: Table, order: seq<nat>) {
    && Linked(t.nodes, order) && Distinct(order) && (forall p :: p in t.nodes <==> p in order)
    && t.head == First(order) && t.tail == Last(order) && t.items == |order|
  }

  ghost predicate KeysOk(n: Nodes, hash: string -> nat) {
    && (forall p | p in n :: n[p].hashv == hash(n[p].key))
    && (forall p, q | p in n && q in n && n[p].key == n[q].key :: p == q)
  }

  /** All that HASH_FSCK checks, every item in its bucket, and keys that identify items. */
  ghost predicate Inv(t: Table, v: View, hash: string -> nat) {
    if t.head == 0 then t == NONE && v == View([], [])
    else
      && OrderOk(t, v.order) && KeysOk(t.nodes, hash) && BucketsOk(t.nodes, t.buckets, v.chains)
      && |t.buckets| == Pow2(t.log2) && Total(v.chains) == t.items
  }

  /** The table and a plain map from keys to items say the same. */
  predicate Agrees(n: Nodes, m: map<string, nat>) {
    && (forall p | p in n :: n[p].key in m && m[n[p].key] == p)
    && (forall k | k in m :: m[k] in n && n[m[k]].key == k)
  }

  // ---- HASH_FIND ----

  /** HASH_FIND: the bucket of the key is searched along hh_next. */
  method Find(t: Table, key: string, hash: string -> nat, ghost v: View, ghost m: map<string, nat>) returns (out: nat)
    requires Inv(t, v, hash) && Agrees(t.nodes, m)
    ensures out == if key in m then m[key] else 0
  {
    hide Chained, OrderOk, Distinct, ToBucket;
    if t.head == 0 {
      NothingInNone(m, key);
      return 0;
    }
    var b := ToBucket(hash(key), |t.buckets|);
    BucketOfHash(hash(key), |t.buckets|, t.log2);
    assert BucketOk(t.nodes, t.buckets, v.chains, b);
    out := FindInBucket(t.nodes, t.buckets[b].head, key, v.chains[b]);
    if key in m {
      assert Belongs(t.nodes, m[key], |v.chains|, b);
    }
  }

  lemma NothingInNone(m: map<string, nat>, key: string)
    requires Agrees(NONE.nodes, m)
    ensures key !in m
  {}

  method FindInBucket(n: Nodes, head: nat, key: string, ghost chain: seq<nat>) returns (out: nat)
    requires head == First(chain) && Chained(n, chain) && Distinct(chain)
    ensures out != 0 ==> out in chain && out in n && n[out].key == key
    ensures out == 0 ==> forall p | p in chain && p in n :: n[p].key != key
  {
    out := head;
    ghost var i := 0;
    while out != 0
      invariant i <= |chain| && out == (if i < |chain| then chain[i] else 0)
      invariant forall j | 0 <= j < i :: chain[j] in n && n[chain[j]].key != key
      decreases |chain| - i
    {
      assert ChainAt(n, chain, i);
      if n[out].key == key { return; }
      out := n[out].hhNext;
      i := i + 1;
    }
  }

  // ---- adding to a bucket ----

  /** HASH_ADD_TO_BKT without the expansion. */
  function PushBucket(buckets: seq<Bucket>, b: nat, p: nat): seq<Bucket>
    requires b < |buckets|
  {
    buckets[b := buckets[b].(head := p, count := buckets[b].count + 1)]
  }

  /** The new item changes hh links only at itself and at the head of its bucket. */
  lemma PushKeepsOther(n: Nodes, m: Nodes, head: nat, p: nat, s: seq<nat>)
    requires p in n && m == Push(n, head, p) && p !in s && head !in s
    ensures SameChain(n, m, s)
  {}

  /** `l` is `n` with one item more that is in no bucket yet. */
  ghost predicate OneMore(n: Nodes, l: Nodes, p: nat) {
    && p !in n && p != 0 && p in l && l.Keys == n.Keys + {p}
    && forall q | q in n :: l[q].hashv == n[q].hashv && l[q].hhPrev == n[q].hhPrev && l[q].hhNext == n[q].hhNext
  }

  lemma PushOtherOk(n: Nodes, l: Nodes, buckets: seq<Bucket>, chains: seq<seq<nat>>, p: nat, b: nat, c: nat)
    requires BucketsOk(n, buckets, chains) && OneMore(n, l, p) && c < |chains| && b == l[p].hashv % |chains| && c != b
    ensures BucketOk(Push(l, buckets[b].head, p), PushBucket(buckets, b, p), chains[b := [p] + chains[b]], c)
  {
    hide Chained, Push;
    var m := Push(l, buckets[b].head, p);
    assert BucketOk(n, buckets, chains, b) && BucketOk(n, buckets, chains, c);
    PushSame(l, buckets[b].head, p);
    InOneBucket(n, buckets, chains, b, c);
    MembersExist(n, buckets, chains, c);
    ChainedStays(n, l, chains[c]);
    PushKeepsOther(l, m, buckets[b].head, p, chains[c]);
    ChainedStays(l, m, chains[c]);
    BelongsOther(n, l, m, chains, c, p);
  }

  lemma PushOwnOk(n: Nodes, l: Nodes, buckets: seq<Bucket>, chains: seq<seq<nat>>, p: nat, b: nat)
    requires BucketsOk(n, buckets, chains) && OneMore(n, l, p) && b == l[p].hashv % |chains|
    ensures BucketOk(Push(l, buckets[b].head, p), PushBucket(buckets, b, p), chains[b := [p] + chains[b]], b)
  {
    hide Chained, Distinct, Push;
    var m := Push(l, buckets[b].head, p);
    assert BucketOk(n, buckets, chains, b);
    PushSame(l, buckets[b].head, p);
    MembersExist(n, buckets, chains, b);
    ChainedStays(n, l, chains[b]);
    PushChains(l, chains[b], p);
    BelongsPushed(n, l, m, chains, b, p);
  }

  lemma PushBucketOk(n: Nodes, l: Nodes, buckets: seq<Bucket>, chains: seq<seq<nat>>, p: nat)
    requires BucketsOk(n, buckets, chains) && OneMore(n, l, p)
    ensures var b := l[p].hashv % |chains|;
            BucketsOk(Push(l, buckets[b].head, p), PushBucket(buckets, b, p), chains[b := [p] + chains[b]])
  {
    hide BucketOk, Push;
    var b := l[p].hashv % |chains|;
    var buckets', chains' := PushBucket(buckets, b, p), chains[b := [p] + chains[b]];
    forall c | 0 <= c < |chains'| ensures BucketOk(Push(l, buckets[b].head, p), buckets', chains', c) {
      if c == b { PushOwnOk(n, l, buckets, chains, p, b); } else { PushOtherOk(n, l, buckets, chains, p, b, c); }
    }
  }

  lemma MembersExist(n: Nodes, buckets: seq<Bucket>, chains: seq<seq<nat>>, b: nat)
    requires b < |buckets| == |chains| && BucketOk(n, buckets, chains, b)
    ensures 0 !in chains[b] && forall q | q in chains[b] :: q in n
  {
    assert forall q | q in chains[b] :: Belongs(n, q, |chains|, b);
  }

  /** No item is in two buckets. */
  lemma InOneBucket(n: Nodes, buckets: seq<Bucket>, chains: seq<seq<nat>>, b: nat, c: nat)
    requires BucketsOk(n, buckets, chains) && b < |chains| && c < |chains| && b != c
    ensures First(chains[b]) !in chains[c] && forall q | q in chains[b] :: q !in chains[c]
  {
    assert BucketOk(n, buckets, chains, b) && BucketOk(n, buckets, chains, c);
    assert forall q | q in chains[b] :: Belongs(n, q, |chains|, b);
    assert forall q | q in chains[c] :: Belongs(n, q, |chains|, c);
    if chains[b] != [] { assert First(chains[b]) in chains[b]; }
  }

  /** Pushing changes no keys and no hash values. */
  lemma PushSame(n: Nodes, head: nat, p: nat)
    requires p in n
    ensures SameItems(n, Push(n, head, p))
    ensures forall q | q in n :: Push(n, head, p)[q].prev == n[q].prev && Push(n, head, p)[q].next == n[q].next
  {}

  lemma BelongsPushed(n: Nodes, l: Nodes, m: Nodes, chains: seq<seq<nat>>, b: nat, p: nat)
    requires b < |chains| && p in l && l.Keys == n.Keys + {p} && SameItems(l, m) && l[p].hashv % |chains| == b
    requires forall q | q in n :: l[q].hashv == n[q].hashv
    requires forall q :: q in chains[b] <==> Belongs(n, q, |chains|, b)
    requires p !in n
    ensures forall q :: q in [p] + chains[b] <==> Belongs(m, q, |chains|, b)
  {
    forall q ensures q in [p] + chains[b] <==> Belongs(m, q, |chains|, b) {
      assert q in chains[b] <==> Belongs(n, q, |chains|, b);
      assert q in m <==> q in n || q == p;
    }
  }

  lemma BelongsOther(n: Nodes, l: Nodes, m: Nodes, chains: seq<seq<nat>>, c: nat, p: nat)
    requires c < |chains| && p in l && l.Keys == n.Keys + {p} && SameItems(l, m) && l[p].hashv % |chains| != c
    requires forall q | q in n :: l[q].hashv == n[q].hashv
    requires forall q :: q in chains[c] <==> Belongs(n, q, |chains|, c)
    ensures forall q :: q in chains[c] <==> Belongs(m, q, |chains|, c)
  {
    forall q ensures q in chains[c] <==> Belongs(m, q, |chains|, c) {
      assert q in chains[c] <==> Belongs(n, q, |chains|, c);
      assert q in m <==> q in n || q == p;
    }
  }

  // ---- HASH_EXPAND_BUCKETS ----

  /** An item has reached its new bucket: those of earlier buckets, and of bucket `b` all but `rest`. */
  predicate Moved(n: Nodes, p: nat, size: nat, b: nat, rest: seq<nat>)
    requires size > 0
  {
    p in n && (n[p].hashv % size < b || (n[p].hashv % size == b && p !in rest))
  }

  ghost predicate NewOk(n: Nodes, size: nat, b: nat, rest: seq<nat>, buckets: seq<Bucket>, chains: seq<seq<nat>>, c: nat)
    requires c < |buckets| == |chains| && size > 0
  {
    && buckets[c].head == First(chains[c]) && buckets[c].count == |chains[c]|
    && Chained(n, chains[c]) && Distinct(chains[c])
    && forall p :: p in chains[c] <==> Belongs(n, p, |chains|, c) && Moved(n, p, size, b, rest)
  }

  /** Half way through: `rest` is what is left of bucket `b`, later buckets are untouched. */
  ghost predicate Moving(n: Nodes, was: seq<seq<nat>>, b: nat, rest: seq<nat>, buckets: seq<Bucket>, chains: seq<seq<nat>>) {
    && 0 < |was| && |buckets| == |chains| == 2 * |was| && b <= |was|
    && (forall c | 0 <= c < |chains| :: NewOk(n, |was|, b, rest, buckets, chains, c))
    && Forward(n, rest) && Distinct(rest) && (forall p | p in rest :: Belongs(n, p, |was|, b))
    && (forall c | b < c < |was| :: OldOk(n, was, c))
  }

  ghost predicate OldOk(n: Nodes, was: seq<seq<nat>>, c: nat)
    requires c < |was|
  {
    Chained(n, was[c]) && Distinct(was[c]) && forall p :: p in was[c] <==> Belongs(n, p, |was|, c)
  }

  /** Where the first item of `rest` goes. */
  lemma MoveOwn(n: Nodes, was: seq<seq<nat>>, b: nat, rest: seq<nat>, buckets: seq<Bucket>, chains: seq<seq<nat>>, d: nat)
    requires Moving(n, was, b, rest, buckets, chains) && rest != [] && rest[0] in n && d == n[rest[0]].hashv % |chains|
    ensures var p := rest[0];
            NewOk(Push(n, buckets[d].head, p), |was|, b, rest[1..], PushBucket(buckets, d, p), chains[d := [p] + chains[d]], d)
  {
    hide Chained, Distinct, Push, Forward;
    var p := rest[0];
    var m := Push(n, buckets[d].head, p);
    assert NewOk(n, |was|, b, rest, buckets, chains, d) && Belongs(n, p, |was|, b);
    RestFacts(rest);
    PushSame(n, buckets[d].head, p);
    PushChains(n, chains[d], p);
    forall q ensures q in [p] + chains[d] <==> Belongs(m, q, |chains|, d) && Moved(m, q, |was|, b, rest[1..]) {
      assert q in chains[d] <==> Belongs(n, q, |chains|, d) && Moved(n, q, |was|, b, rest);
    }
  }

  lemma RestFacts(rest: seq<nat>)
    requires Distinct(rest) && rest != []
    ensures rest[0] != 0 && rest[0] !in rest[1..] && Distinct(rest[1..]) && (forall q :: q in rest <==> q == rest[0] || q in rest[1..])
  {
    assert rest == [rest[0]] + rest[1..];
  }

  lemma MoveOther(n: Nodes, was: seq<seq<nat>>, b: nat, rest: seq<nat>, buckets: seq<Bucket>, chains: seq<seq<nat>>, d: nat, c: nat)
    requires Moving(n, was, b, rest, buckets, chains) && rest != [] && rest[0] in n && d == n[rest[0]].hashv % |chains|
    requires c < |chains| && c != d
    ensures var p := rest[0];
            NewOk(Push(n, buckets[d].head, p), |was|, b, rest[1..], PushBucket(buckets, d, p), chains[d := [p] + chains[d]], c)
  {
    hide Chained, Push, Forward;
    var p := rest[0];
    var m := Push(n, buckets[d].head, p);
    assert NewOk(n, |was|, b, rest, buckets, chains, d) && NewOk(n, |was|, b, rest, buckets, chains, c) && Belongs(n, p, |was|, b);
    RestFacts(rest);
    PushSame(n, buckets[d].head, p);
    HeadElsewhere(n, was, b, rest, buckets, chains, d, c);
    PushKeepsOther(n, m, buckets[d].head, p, chains[c]);
    ChainedStays(n, m, chains[c]);
    forall q ensures q in chains[c] <==> Belongs(m, q, |chains|, c) && Moved(m, q, |was|, b, rest[1..]) {
      assert q in chains[c] <==> Belongs(n, q, |chains|, c) && Moved(n, q, |was|, b, rest);
    }
  }

  lemma HeadElsewhere(n: Nodes, was: seq<seq<nat>>, b: nat, rest: seq<nat>, buckets: seq<Bucket>, chains: seq<seq<nat>>, d: nat, c: nat)
    requires Moving(n, was, b, rest, buckets, chains) && d < |chains| && c < |chains| && c != d
    ensures First(chains[d]) !in chains[c]
  {
    hide Chained, Forward;
    assert NewOk(n, |was|, b, rest, buckets, chains, d) && NewOk(n, |was|, b, rest, buckets, chains, c);
    var q := First(chains[d]);
    if chains[d] != [] {
      assert q in chains[d];
      assert Belongs(n, q, |chains|, d);
    }
  }

  /** The part still to be moved is not disturbed. */
  lemma MoveRest(n: Nodes, was: seq<seq<nat>>, b: nat, rest: seq<nat>, buckets: seq<Bucket>, chains: seq<seq<nat>>, d: nat)
    requires Moving(n, was, b, rest, buckets, chains) && rest != [] && rest[0] in n && d < |chains|
    ensures var p := rest[0];
            var m := Push(n, buckets[d].head, p);
            && Forward(m, rest[1..]) && Distinct(rest[1..]) && n[p].hhNext == First(rest[1..])
            && (forall q | q in rest[1..] :: Belongs(m, q, |was|, b))
  {
    hide Chained, Push;
    var p, more := rest[0], rest[1..];
    var m := Push(n, buckets[d].head, p);
    assert ForwardAt(n, rest, 0) && NewOk(n, |was|, b, rest, buckets, chains, d);
    RestFacts(rest);
    PushSame(n, buckets[d].head, p);
    var h := buckets[d].head;
    if chains[d] != [] {
      assert h in chains[d];
      assert Moved(n, h, |was|, b, rest);
      assert h in rest ==> Belongs(n, h, |was|, b);
    }
    PushKeepsOther(n, m, h, p, more);
    forall i | 0 <= i < |more| ensures ForwardAt(m, more, i) {
      assert ForwardAt(n, rest, i + 1) && more[i] in more;
    }
    forall q | q in more ensures Belongs(m, q, |was|, b) { assert Belongs(n, q, |was|, b); }
  }

  lemma MoveOld(n: Nodes, was: seq<seq<nat>>, b: nat, rest: seq<nat>, buckets: seq<Bucket>, chains: seq<seq<nat>>, d: nat, c: nat)
    requires Moving(n, was, b, rest, buckets, chains) && rest != [] && rest[0] in n && d < |chains| && b < c < |was|
    ensures OldOk(Push(n, buckets[d].head, rest[0]), was, c)
  {
    hide Chained, Push, Forward;
    var p := rest[0];
    var m := Push(n, buckets[d].head, p);
    assert OldOk(n, was, c) && NewOk(n, |was|, b, rest, buckets, chains, d) && Belongs(n, p, |was|, b);
    PushSame(n, buckets[d].head, p);
    var h := buckets[d].head;
    if chains[d] != [] {
      assert h in chains[d];
      assert Moved(n, h, |was|, b, rest);
    }
    assert p in was[c] ==> Belongs(n, p, |was|, c);
    PushKeepsOther(n, m, h, p, was[c]);
    ChainedStays(n, m, was[c]);
    forall q ensures q in was[c] <==> Belongs(m, q, |was|, c) { assert q in was[c] <==> Belongs(n, q, |was|, c); }
  }

  /** One turn of the inner loop of HASH_EXPAND_BUCKETS. */
  lemma MoveOne(n: Nodes, was: seq<seq<nat>>, b: nat, rest: seq<nat>, buckets: seq<Bucket>, chains: seq<seq<nat>>)
    requires Moving(n, was, b, rest, buckets, chains) && rest != [] && rest[0] in n
    ensures var p := rest[0];
            var d := n[p].hashv % |chains|;
            && Moving(Push(n, buckets[d].head, p), was, b, rest[1..], PushBucket(buckets, d, p), chains[d := [p] + chains[d]])
            && n[p].hhNext == First(rest[1..])
  {
    hide NewOk, OldOk, Push, Forward, Distinct, Belongs;
    var p := rest[0];
    var d := n[p].hashv % |chains|;
    var m, buckets', chains' := Push(n, buckets[d].head, p), PushBucket(buckets, d, p), chains[d := [p] + chains[d]];
    forall c | 0 <= c < |chains'| ensures NewOk(m, |was|, b, rest[1..], buckets', chains', c) {
      if c == d { MoveOwn(n, was, b, rest, buckets, chains, d); } else { MoveOther(n, was, b, rest, buckets, chains, d, c); }
    }
    MoveRest(n, was, b, rest, buckets, chains, d);
    forall c | b < c < |was| ensures OldOk(m, was, c) { MoveOld(n, was, b, rest, buckets, chains, d, c); }
  }

  /** A bucket is empty: on to the next one. */
  lemma NextBucket(n: Nodes, was: seq<seq<nat>>, b: nat, buckets: seq<Bucket>, chains: seq<seq<nat>>)
    requires Moving(n, was, b, [], buckets, chains) && b < |was|
    ensures Moving(n, was, b + 1, if b + 1 < |was| then was[b + 1] else [], buckets, chains)
  {
    hide Chained, Distinct;
    var next, rest := b + 1, if b + 1 < |was| then was[b + 1] else [];
    if b + 1 < |was| {
      assert OldOk(n, was, b + 1);
      ChainedForward(n, was[b + 1]);
    }
    EmptyDistinct();
    forall c | 0 <= c < |chains| ensures NewOk(n, |was|, next, rest, buckets, chains, c) {
      assert NewOk(n, |was|, b, [], buckets, chains, c);
      forall p ensures p in chains[c] <==> Belongs(n, p, |chains|, c) && Moved(n, p, |was|, next, rest) {
        assert p in chains[c] <==> Belongs(n, p, |chains|, c) && Moved(n, p, |was|, b, []);
        assert b + 1 < |was| ==> (p in was[b + 1] <==> Belongs(n, p, |was|, b + 1));
      }
    }
  }

  lemma EmptyDistinct()
    ensures Distinct([])
  {}

  /** After the last bucket every item is in its new place. */
  lemma AllMoved(n: Nodes, was: seq<seq<nat>>, buckets: seq<Bucket>, chains: seq<seq<nat>>)
    requires Moving(n, was, |was|, [], buckets, chains)
    ensures BucketsOk(n, buckets, chains) && |buckets| == 2 * |was|
  {
    hide Chained, Distinct, Forward;
    forall c | 0 <= c < |chains| ensures BucketOk(n, buckets, chains, c) {
      assert NewOk(n, |was|, |was|, [], buckets, chains, c);
      forall p ensures p in chains[c] <==> Belongs(n, p, |chains|, c) {
        assert p in chains[c] <==> Belongs(n, p, |chains|, c) && Moved(n, p, |was|, |was|, []);
      }
    }
  }

  lemma StartMoving(n: Nodes, buckets: seq<Bucket>, was: seq<seq<nat>>, fresh': seq<Bucket>, chains: seq<seq<nat>>)
    requires BucketsOk(n, buckets, was) && |fresh'| == |chains| == 2 * |was|
    requires forall c | 0 <= c < |chains| :: fresh'[c] == Bucket(0, 0, 0) && chains[c] == []
    ensures Moving(n, was, 0, was[0], fresh', chains)
  {
    hide Chained, Distinct;
    assert BucketOk(n, buckets, was, 0);
    ChainedForward(n, was[0]);
    EmptyDistinct();
    EmptyChained(n);
    forall c | 0 <= c < |chains| ensures NewOk(n, |was|, 0, was[0], fresh', chains, c) {
      assert fresh'[c] == Bucket(0, 0, 0) && chains[c] == [];
      forall p ensures !(Belongs(n, p, |chains|, c) && Moved(n, p, |was|, 0, was[0])) {
        assert p in was[0] <==> Belongs(n, p, |was|, 0);
      }
    }
    forall c | 0 < c < |was| ensures OldOk(n, was, c) { assert BucketOk(n, buckets, was, c); }
  }

  lemma EmptyChained(n: Nodes)
    ensures Chained(n, [])
  {}

  /** What has been moved so far while the buckets are doubled. */
  datatype Fresh = Fresh(nodes: Nodes, buckets: seq<Bucket>, nonideal: nat)

  /** The items keep their keys, their hash values and their place in the application order. */
  ghost predicate OnlyChains(n: Nodes, m: Nodes) {
    SameItems(n, m) && forall p | p in n :: p in m && m[p].prev == n[p].prev && m[p].next == n[p].next
  }

  lemma OnlyChainsPush(n: Nodes, m: Nodes, head: nat, p: nat)
    requires OnlyChains(n, m) && p in m
    ensures OnlyChains(n, Push(m, head, p))
  {
    hide Push;
    PushSame(m, head, p);
  }

  /** One turn of the inner loop: `thh` goes in front of its new bucket. */
  method MoveItem(f: Fresh, thh: nat, ideal: nat, ghost was: seq<seq<nat>>, ghost b: nat, ghost rest: seq<nat>,
                  ghost chains: seq<seq<nat>>, ghost n: Nodes, ghost log2: nat)
    returns (f': Fresh, next: nat, ghost chains': seq<seq<nat>>)
    requires Moving(f.nodes, was, b, rest, f.buckets, chains) && rest != [] && thh == rest[0] && ideal > 0 && OnlyChains(n, f.nodes)
    requires |f.buckets| == Pow2(log2)
    ensures |f'.buckets| == |f.buckets|
    ensures Moving(f'.nodes, was, b, rest[1..], f'.buckets, chains') && next == First(rest[1..]) && OnlyChains(n, f'.nodes)
    ensures Total(chains') == Total(chains) + 1
  {
    hide Moving, OnlyChains, Push, Total, ToBucket;
    FirstExists(f.nodes, was, b, rest, f.buckets, chains);
    MoveOne(f.nodes, was, b, rest, f.buckets, chains);
    next := f.nodes[thh].hhNext;
    var d := ToBucket(f.nodes[thh].hashv, |f.buckets|);
    BucketOfHash(f.nodes[thh].hashv, |f.buckets|, log2);
    var bucket := f.buckets[d];
    OnlyChainsPush(n, f.nodes, bucket.head, thh);
    TotalUpdate(chains, d, [thh] + chains[d]);
    chains' := chains[d := [thh] + chains[d]];
    var count, nonideal, mult := bucket.count + 1, f.nonideal, bucket.mult;
    if count > ideal {
      nonideal := nonideal + 1;
      mult := count / ideal;
    }
    f' := Fresh(Push(f.nodes, bucket.head, thh), f.buckets[d := Bucket(thh, count, mult)], nonideal);
    MultFree(f'.nodes, was, b, rest[1..], PushBucket(f.buckets, d, thh), f'.buckets, chains');
  }

  lemma FirstExists(n: Nodes, was: seq<seq<nat>>, b: nat, rest: seq<nat>, buckets: seq<Bucket>, chains: seq<seq<nat>>)
    requires Moving(n, was, b, rest, buckets, chains) && rest != []
    ensures rest[0] in n && |buckets| == |chains| > 0
  {
    assert ForwardAt(n, rest, 0);
  }

  /** The expansion factor of a bucket plays no part in the structure. */
  lemma MultFree(n: Nodes, was: seq<seq<nat>>, b: nat, rest: seq<nat>, x: seq<Bucket>, y: seq<Bucket>, chains: seq<seq<nat>>)
    requires Moving(n, was, b, rest, x, chains) && |x| == |y|
    requires forall c | 0 <= c < |x| :: y[c].head == x[c].head && y[c].count == x[c].count
    ensures Moving(n, was, b, rest, y, chains)
  {
    hide Chained, Distinct, Forward, OldOk, Belongs;
    forall c | 0 <= c < |chains| ensures NewOk(n, |was|, b, rest, y, chains, c) { assert NewOk(n, |was|, b, rest, x, chains, c); }
  }

  lemma SameOnlyChains(n: Nodes)
    ensures OnlyChains(n, n)
  {}

  lemma {:induction false} NoneYet(chains: seq<seq<nat>>)
    requires forall c | 0 <= c < |chains| :: chains[c] == []
    ensures Total(chains) == 0
  {
    if chains != [] {
      assert chains[0] == [];
      NoneYet(chains[1..]);
    }
  }

  lemma TotalSplit(chains: seq<seq<nat>>, b: nat)
    requires b < |chains|
    ensures Total(chains[b..]) == |chains[b]| + Total(chains[b + 1..])
  {
    assert chains[b..][1..] == chains[b + 1..];
  }

  lemma HeadOf(n: Nodes, buckets: seq<Bucket>, chains: seq<seq<nat>>, b: nat)
    requires BucketsOk(n, buckets, chains)
    ensures |buckets| == |chains| > 0 && (b < |chains| ==> buckets[b].head == First(chains[b]))
  {
    if b < |chains| { assert BucketOk(n, buckets, chains, b); }
  }

  /** The inner loop: the items of one bucket. */
  method MoveBucket(f0: Fresh, head: nat, ideal: nat, ghost was: seq<seq<nat>>, ghost b: nat, ghost chains0: seq<seq<nat>>,
                    ghost n: Nodes, ghost log2: nat)
    returns (f: Fresh, ghost chains: seq<seq<nat>>)
    requires b < |was| && head == First(was[b]) && ideal > 0 && OnlyChains(n, f0.nodes)
    requires Moving(f0.nodes, was, b, was[b], f0.buckets, chains0) && |f0.buckets| == Pow2(log2)
    ensures |f.buckets| == |f0.buckets|
    ensures Moving(f.nodes, was, b, [], f.buckets, chains) && OnlyChains(n, f.nodes)
    ensures Total(chains) == Total(chains0) + |was[b]|
  {
    hide Moving, OnlyChains, Total;
    f, chains := f0, chains0;
    var thh := head;
    ghost var rest := was[b];
    NotZero(f.nodes, was, b, rest, f.buckets, chains);
    while thh != 0
      invariant thh == First(rest) && 0 !in rest && Moving(f.nodes, was, b, rest, f.buckets, chains) && OnlyChains(n, f.nodes)
      invariant |f.buckets| == |f0.buckets| && Total(chains) + |rest| == Total(chains0) + |was[b]|
      decreases |rest|
    {
      f, thh, chains := MoveItem(f, thh, ideal, was, b, rest, chains, n, log2);
      rest := rest[1..];
    }
  }

  lemma NotZero(n: Nodes, was: seq<seq<nat>>, b: nat, rest: seq<nat>, buckets: seq<Bucket>, chains: seq<seq<nat>>)
    requires Moving(n, was, b, rest, buckets, chains)
    ensures 0 !in rest
  {}

  /** HASH_EXPAND_BUCKETS: twice as many buckets, every item in the one it belongs to. */
  method ExpandBuckets(t: Table, ghost v: View) returns (t': Table, ghost v': View)
    requires t.items > 0 && BucketsOk(t.nodes, t.buckets, v.chains) && |t.buckets| == Pow2(t.log2)
    ensures BucketsOk(t'.nodes, t'.buckets, v'.chains) && |t'.buckets| == 2 * |t.buckets| && t'.log2 == t.log2 + 1
    ensures OnlyChains(t.nodes, t'.nodes) && v'.order == v.order && Total(v'.chains) == Total(v.chains)
    ensures t'.head == t.head && t'.tail == t.tail && t'.items == t.items
    ensures t'.ideal == Ideal(t.items, |t.buckets|, t.log2) > 0
  {
    hide Moving, BucketsOk, OnlyChains, Total, Shr, And, Ideal;
    HeadOf(t.nodes, t.buckets, v.chains, 0);
    var ideal := Ideal(t.items, |t.buckets|, t.log2);
    IdealIsCeiling(t.items, |t.buckets|, t.log2);
    var f := Fresh(t.nodes, seq(2 * |t.buckets|, i => Bucket(0, 0, 0)), 0);
    ghost var was := v.chains;
    assert was[0..] == was;
    ghost var chains: seq<seq<nat>> := seq(2 * |t.buckets|, i => []);
    StartMoving(t.nodes, t.buckets, was, f.buckets, chains);
    SameOnlyChains(t.nodes);
    NoneYet(chains);
    var b := 0;
    while b < |t.buckets|
      invariant b <= |t.buckets| && Moving(f.nodes, was, b, if b < |was| then was[b] else [], f.buckets, chains)
      invariant |f.buckets| == Pow2(t.log2 + 1) && OnlyChains(t.nodes, f.nodes) && Total(chains) + Total(was[b..]) == Total(was)
    {
      HeadOf(t.nodes, t.buckets, was, b);
      f, chains := MoveBucket(f, t.buckets[b].head, ideal, was, b, chains, t.nodes, t.log2 + 1);
      NextBucket(f.nodes, was, b, f.buckets, chains);
      TotalSplit(was, b);
      b := b + 1;
    }
    AllMoved(f.nodes, was, f.buckets, chains);
    NoneYet(was[b..]);
    var ineffective := if f.nonideal > Shr(t.items, 1) then t.ineffective + 1 else 0;
    t' := t.(nodes := f.nodes, buckets := f.buckets, log2 := t.log2 + 1, ideal := ideal, nonideal := f.nonideal,
             ineffective := ineffective, noexpand := t.noexpand || ineffective > 1);
    v' := View(v.order, chains);
  }
}
