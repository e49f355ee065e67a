/** HASH_ADD and HASH_DELETE on a uthash table, and its agreement with a plain map over every run. */
module HashIndex {
  import opened Bytes
  import opened HashBits
  import opened HashLinks
  import opened HashTable

  // ---- HASH_ADD_KEYPTR ----

  function NewHandle(key: string, hashv: nat): Handle {
    Handle(key, hashv, 0, 0, 0, 0)
  }

  /** HASH_MAKE_TABLE. */
  function MakeTable(): Table {
    Table(map[], 0, 0, 0, seq(INITIAL_BUCKETS, i => Bucket(0, 0, 0)), 5, 0, 0, 0, false)
  }

  function MakeView(): View {
    View([], seq(INITIAL_BUCKETS, i => []))
  }

  /** A table with any number of items, also none: what Inv says once the table exists. */
  ghost predicate Whole(t: Table, v: View, hash: string -> nat) {
    && OrderOk(t, v.order) && KeysOk(t.nodes, hash) && BucketsOk(t.nodes, t.buckets, v.chains)
    && |t.buckets| == Pow2(t.log2) && Total(v.chains) == t.items
  }

  lemma NewTableWhole(hash: string -> nat)
    ensures Whole(MakeTable(), MakeView(), hash)
  {
    var t, v := MakeTable(), MakeView();
    NoneYet(v.chains);
    assert Pow2(5) == 32;
    forall b | 0 <= b < |v.chains| ensures BucketOk(t.nodes, t.buckets, v.chains, b) {
      assert v.chains[b] == [] && t.buckets[b] == Bucket(0, 0, 0);
    }
  }

  lemma AppendSame(n: Nodes, tail: nat, p: nat, h: Handle)
    requires p !in n
    ensures var l := Append(n, tail, p, h);
            && l.Keys == n.Keys + {p} && l[p].key == h.key && l[p].hashv == h.hashv
            && forall q | q in n :: l[q].key == n[q].key && l[q].hashv == n[q].hashv && l[q].hhPrev == n[q].hhPrev && l[q].hhNext == n[q].hhNext
  {}

  lemma KeysGrow(n: Nodes, l: Nodes, p: nat, hash: string -> nat, m: map<string, nat>)
    requires KeysOk(n, hash) && Agrees(n, m) && p !in n && p in l && l.Keys == n.Keys + {p}
    requires l[p].key !in m && l[p].hashv == hash(l[p].key)
    requires forall q | q in n :: l[q].key == n[q].key && l[q].hashv == n[q].hashv
    ensures KeysOk(l, hash) && Agrees(l, m[l[p].key := p])
  {
    assert forall q | q in l :: q in n || q == p;
  }

  /** The item is linked behind the tail but in no bucket yet. */
  lemma AppendedOk(t: Table, v: View, p: nat, h: Handle, hash: string -> nat, m: map<string, nat>)
    requires Whole(t, v, hash) && p != 0 && p !in t.nodes && Agrees(t.nodes, m) && h.key !in m && h.hashv == hash(h.key)
    ensures var l := Append(t.nodes, t.tail, p, h);
            && OneMore(t.nodes, l, p) && Linked(l, v.order + [p]) && Distinct(v.order + [p])
            && KeysOk(l, hash) && Agrees(l, m[h.key := p])
  {
    hide BucketsOk, Linked, Distinct, Total, Append, KeysOk, Agrees;
    AppendSame(t.nodes, t.tail, p, h);
    AppendLinks(t.nodes, v.order, p, h);
    KeysGrow(t.nodes, Append(t.nodes, t.tail, p, h), p, hash, m);
  }

  /** HASH_ADD_KEYPTR, for a key that is not there yet. */
  method Add(t: Table, p: nat, key: string, hash: string -> nat, ghost v: View, ghost m: map<string, nat>)
    returns (t': Table, ghost v': View)
    requires Inv(t, v, hash) && p != 0 && p !in t.nodes && Agrees(t.nodes, m) && key !in m
    ensures Inv(t', v', hash) && Agrees(t'.nodes, m[key := p]) && v'.order == v.order + [p]
    ensures t'.nodes.Keys == t.nodes.Keys + {p}
  {
    hide OrderOk, KeysOk, BucketsOk, Linked, Distinct, Append, Push, Agrees, Total, BucketOk, MakeTable, MakeView;
    var u := if t.head == 0 then MakeTable() else t;
    ghost var w := if t.head == 0 then MakeView() else v;
    Started(t, v, hash);
    var h := NewHandle(key, hash(key));
    AppendedOk(u, w, p, h, hash, m);
    var l := Append(u.nodes, u.tail, p, h);
    u := u.(nodes := l, head := if u.head == 0 then p else u.head, tail := p, items := u.items + 1);
    t', v' := AddToBucket(u, p, w, if t.head == 0 then MakeTable() else t, hash, m[key := p]);
  }

  lemma Started(t: Table, v: View, hash: string -> nat)
    requires Inv(t, v, hash)
    ensures Whole(if t.head == 0 then MakeTable() else t, if t.head == 0 then MakeView() else v, hash)
    ensures var s := if t.head == 0 then MakeTable() else t;
            s.nodes == t.nodes && s.head == t.head == First(v.order) && s.items == |v.order|
    ensures (if t.head == 0 then MakeView() else v).order == v.order
  {
    NewTableWhole(hash);
  }

  /** HASH_ADD_TO_BKT; the buckets are doubled when the chain has grown too long. */
  method AddToBucket(u: Table, p: nat, ghost w: View, ghost t: Table, hash: string -> nat, ghost m: map<string, nat>)
    returns (t': Table, ghost v': View)
    requires Whole(t, w, hash) && u.buckets == t.buckets && u.log2 == t.log2 && OneMore(t.nodes, u.nodes, p)
    requires Linked(u.nodes, w.order + [p]) && Distinct(w.order + [p]) && KeysOk(u.nodes, hash) && Agrees(u.nodes, m)
    requires u.head == First(w.order + [p]) && u.tail == p && u.items == |w.order| + 1
    ensures Inv(t', v', hash) && Agrees(t'.nodes, m) && v'.order == w.order + [p]
    ensures t'.nodes.Keys == u.nodes.Keys
  {
    hide KeysOk, BucketsOk, Linked, Distinct, Push, Agrees, Total, BucketOk, OneMore, ToBucket;
    PushBucketOk(t.nodes, u.nodes, t.buckets, w.chains, p);
    NewItem(t, u, w, p, hash);
    var b := ToBucket(u.nodes[p].hashv, |u.buckets|);
    BucketOfHash(u.nodes[p].hashv, |u.buckets|, u.log2);
    PushSame(u.nodes, u.buckets[b].head, p);
    TotalUpdate(w.chains, b, [p] + w.chains[b]);
    v' := View(w.order + [p], w.chains[b := [p] + w.chains[b]]);
    t' := u.(nodes := Push(u.nodes, u.buckets[b].head, p), buckets := PushBucket(u.buckets, b, p));
    SameOnlyChains(u.nodes);
    Carried(u.nodes, t'.nodes, v'.order, hash, m);
    var bucket := t'.buckets[b];
    if bucket.count >= (bucket.mult + 1) * CAPACITY && !t'.noexpand {
      ghost var n := t'.nodes;
      t', v' := ExpandBuckets(t', v');
      Carried(n, t'.nodes, v'.order, hash, m);
    }
    Together(t', v', hash, p);
  }

  lemma NewItem(t: Table, u: Table, w: View, p: nat, hash: string -> nat)
    requires Whole(t, w, hash) && OneMore(t.nodes, u.nodes, p)
    ensures |t.buckets| == |w.chains| > 0 && p != 0 && p in u.nodes && Total(w.chains) == t.items == |w.order|
    ensures forall q :: q in u.nodes <==> q in w.order + [p]
  {
    hide Linked, Distinct, BucketOk;
  }

  /** A change of chains alone leaves the order, the keys and the map as they are. */
  lemma Carried(n: Nodes, m: Nodes, order: seq<nat>, hash: string -> nat, index: map<string, nat>)
    requires OnlyChains(n, m) && Linked(n, order) && KeysOk(n, hash) && Agrees(n, index)
    ensures Linked(m, order) && KeysOk(m, hash) && Agrees(m, index) && m.Keys == n.Keys
  {
    LinkedStays(n, m, order);
  }

  lemma Together(t: Table, v: View, hash: string -> nat, p: nat)
    requires Linked(t.nodes, v.order) && Distinct(v.order) && (forall q :: q in t.nodes <==> q in v.order) && p in v.order
    requires t.head == First(v.order) && t.tail == Last(v.order) && t.items == |v.order|
    requires KeysOk(t.nodes, hash) && BucketsOk(t.nodes, t.buckets, v.chains) && |t.buckets| == Pow2(t.log2) && Total(v.chains) == t.items
    ensures Inv(t, v, hash)
  {
    hide Linked, BucketsOk, KeysOk, Total;
  }

  // ---- HASH_DELETE ----

  /** The nodes after both lists have let go of `p`. */
  function Dropped(n: Nodes, p: nat): Nodes
    requires p in n
  {
    var l := Unlink(n, p);
    if p in l then Unchain(l, p) - {p} else n
  }

  lemma UnlinkSame(n: Nodes, p: nat)
    requires p in n
    ensures var l := Unlink(n, p);
            && SameItems(n, l) && p in l && l[p].hhPrev == n[p].hhPrev && l[p].hhNext == n[p].hhNext
            && forall q | q in n :: l[q].hhPrev == n[q].hhPrev && l[q].hhNext == n[q].hhNext
  {}

  lemma UnchainSame(n: Nodes, p: nat)
    requires p in n
    ensures var l := Unchain(n, p);
            && SameItems(n, l)
            && (forall q | q in n :: l[q].prev == n[q].prev && l[q].next == n[q].next)
            && (forall q | q in n && q != n[p].hhPrev && q != n[p].hhNext :: l[q].hhPrev == n[q].hhPrev && l[q].hhNext == n[q].hhNext)
  {}

  lemma DroppedItems(n: Nodes, p: nat)
    requires p in n
    ensures var d := Dropped(n, p);
            d.Keys == n.Keys - {p} && forall q | q in d :: d[q].key == n[q].key && d[q].hashv == n[q].hashv
  {
    hide Unlink, Unchain;
    UnlinkSame(n, p);
    UnchainSame(Unlink(n, p), p);
  }

  lemma DroppedOrder(n: Nodes, order: seq<nat>, k: nat)
    requires Linked(n, order) && Distinct(order) && k < |order| && 0 !in n && order[k] in n
    ensures Linked(Dropped(n, order[k]), Without(order, k)) && Distinct(Without(order, k))
  {
    hide Unlink, Unchain, Linked, Distinct;
    var p := order[k];
    UnlinkLinks(n, order, k);
    UnlinkSame(n, p);
    UnchainSame(Unlink(n, p), p);
    WithoutDistinct(order, k);
    LinkedStays(Unlink(n, p), Dropped(n, p), Without(order, k));
  }

  lemma DroppedOwn(n: Nodes, chain: seq<nat>, j: nat)
    requires Chained(n, chain) && Distinct(chain) && j < |chain| && 0 !in n && chain[j] in n
    ensures Chained(Dropped(n, chain[j]), Without(chain, j)) && Distinct(Without(chain, j))
    ensures First(Without(chain, j)) == if First(chain) == chain[j] then n[chain[j]].hhNext else First(chain)
  {
    hide Unlink, Unchain;
    var p := chain[j];
    var l := Unlink(n, p);
    UnlinkSame(n, p);
    ChainedStays(n, l, chain);
    UnchainChains(l, chain, j);
    UnchainSame(l, p);
    WithoutDistinct(chain, j);
    ChainedStays(Unchain(l, p), Dropped(n, p), Without(chain, j));
    assert ChainAt(n, chain, j);
  }

  /** The neighbours of an item in its chain are in the same chain. */
  lemma Neighbours(n: Nodes, chain: seq<nat>, j: nat)
    requires Chained(n, chain) && j < |chain|
    ensures chain[j] in n && (n[chain[j]].hhPrev == 0 || n[chain[j]].hhPrev in chain) && (n[chain[j]].hhNext == 0 || n[chain[j]].hhNext in chain)
  {
    assert ChainAt(n, chain, j);
  }

  lemma DroppedOther(n: Nodes, p: nat, chain: seq<nat>)
    requires Chained(n, chain) && p in n && p !in chain && n[p].hhPrev !in chain && n[p].hhNext !in chain
    ensures Chained(Dropped(n, p), chain)
  {
    hide Unlink, Unchain, Chained;
    UnlinkSame(n, p);
    UnchainSame(Unlink(n, p), p);
    ChainedStays(n, Dropped(n, p), chain);
  }

  /** HASH_DEL_IN_BKT. */
  function DropBucket(buckets: seq<Bucket>, b: nat, p: nat, next: nat): seq<Bucket>
    requires b < |buckets| && buckets[b].count > 0
  {
    buckets[b := buckets[b].(head := if buckets[b].head == p then next else buckets[b].head, count := buckets[b].count - 1)]
  }

  /** An item stands somewhere in the chain of its bucket. */
  lemma Position(n: Nodes, buckets: seq<Bucket>, chains: seq<seq<nat>>, p: nat) returns (j: nat)
    requires BucketsOk(n, buckets, chains) && p in n
    ensures var b := n[p].hashv % |chains|;
            j < |chains[b]| && chains[b][j] == p && buckets[b].count > 0
  {
    var b := n[p].hashv % |chains|;
    assert BucketOk(n, buckets, chains, b) && Belongs(n, p, |chains|, b);
    j :| 0 <= j < |chains[b]| && chains[b][j] == p;
  }

  lemma DropOwnOk(n: Nodes, buckets: seq<Bucket>, chains: seq<seq<nat>>, p: nat, b: nat, j: nat)
    requires BucketsOk(n, buckets, chains) && p in n && 0 !in n && b == n[p].hashv % |chains|
    requires j < |chains[b]| && chains[b][j] == p && buckets[b].count > 0
    ensures BucketOk(Dropped(n, p), DropBucket(buckets, b, p, n[p].hhNext), chains[b := Without(chains[b], j)], b)
  {
    hide Chained, Dropped, Distinct, Without;
    assert BucketOk(n, buckets, chains, b);
    var d, s := Dropped(n, p), Without(chains[b], j);
    DroppedOwn(n, chains[b], j);
    DroppedItems(n, p);
    WithoutDistinct(chains[b], j);
    WithoutLength(chains[b], j);
    forall q ensures q in s <==> Belongs(d, q, |chains|, b) {
      assert q in chains[b] <==> Belongs(n, q, |chains|, b);
      assert q in d <==> q in n && q != p;
    }
  }

  lemma WithoutLength(s: seq<nat>, k: nat)
    requires k < |s|
    ensures |Without(s, k)| == |s| - 1
  {}

  lemma DropOtherOk(n: Nodes, buckets: seq<Bucket>, chains: seq<seq<nat>>, p: nat, b: nat, j: nat, c: nat)
    requires BucketsOk(n, buckets, chains) && p in n && 0 !in n && b == n[p].hashv % |chains|
    requires j < |chains[b]| && chains[b][j] == p && buckets[b].count > 0 && c < |chains| && c != b
    ensures BucketOk(Dropped(n, p), DropBucket(buckets, b, p, n[p].hhNext), chains[b := Without(chains[b], j)], c)
  {
    hide Chained, Dropped, Without;
    assert BucketOk(n, buckets, chains, b) && BucketOk(n, buckets, chains, c);
    var d := Dropped(n, p);
    InOneBucket(n, buckets, chains, b, c);
    MembersExist(n, buckets, chains, c);
    Neighbours(n, chains[b], j);
    assert p in chains[b];
    DroppedOther(n, p, chains[c]);
    DroppedItems(n, p);
    forall q ensures q in chains[c] <==> Belongs(d, q, |chains|, c) {
      assert q in chains[c] <==> Belongs(n, q, |chains|, c);
      assert q in d <==> q in n && q != p;
    }
  }

  lemma DropBucketsOk(n: Nodes, buckets: seq<Bucket>, chains: seq<seq<nat>>, p: nat, j: nat)
    requires BucketsOk(n, buckets, chains) && p in n && 0 !in n
    requires var b := n[p].hashv % |chains|; j < |chains[b]| && chains[b][j] == p && buckets[b].count > 0
    ensures var b := n[p].hashv % |chains|;
            BucketsOk(Dropped(n, p), DropBucket(buckets, b, p, n[p].hhNext), chains[b := Without(chains[b], j)])
  {
    hide BucketOk, Dropped, Without;
    var b := n[p].hashv % |chains|;
    var d, buckets', chains' := Dropped(n, p), DropBucket(buckets, b, p, n[p].hhNext), chains[b := Without(chains[b], j)];
    forall c | 0 <= c < |chains'| ensures BucketOk(d, buckets', chains', c) {
      if c == b { DropOwnOk(n, buckets, chains, p, b, j); } else { DropOtherOk(n, buckets, chains, p, b, j, c); }
    }
  }

  lemma KeysShrink(n: Nodes, d: Nodes, p: nat, hash: string -> nat, m: map<string, nat>)
    requires KeysOk(n, hash) && Agrees(n, m) && p in n && d.Keys == n.Keys - {p}
    requires forall q | q in d :: d[q].key == n[q].key && d[q].hashv == n[q].hashv
    ensures KeysOk(d, hash) && Agrees(d, m - {n[p].key})
  {
    assert forall q | q in d :: q in n && q != p;
  }

  /** HASH_DELETE of an item of the table. */
  method Delete(t: Table, p: nat, hash: string -> nat, ghost v: View, ghost m: map<string, nat>) returns (t': Table, ghost v': View)
    requires Inv(t, v, hash) && Agrees(t.nodes, m) && p in t.nodes
    ensures Inv(t', v', hash) && Agrees(t'.nodes, m - {t.nodes[p].key}) && t'.nodes.Keys == t.nodes.Keys - {p}
    ensures exists k :: 0 <= k < |v.order| && v.order[k] == p && v'.order == Without(v.order, k)
  {
    hide BucketsOk, KeysOk, Agrees, Total, Dropped, Without, Linked, Distinct, ToBucket;
    ghost var k: nat :| k < |v.order| && v.order[k] == p;
    Facts(t, v, hash, p, k);
    var h := t.nodes[p];
    DroppedItems(t.nodes, p);
    KeysShrink(t.nodes, Dropped(t.nodes, p), p, hash, m);
    if h.prev == 0 && h.next == 0 {
      t', v' := NONE, View([], []);
      OnlyItem(t.nodes, Dropped(t.nodes, p), v.order, k);
    } else {
      ghost var j := Position(t.nodes, t.buckets, v.chains, p);
      var b := ToBucket(h.hashv, |t.buckets|);
      BucketOfHash(h.hashv, |t.buckets|, t.log2);
      t' := t.(
        nodes := Dropped(t.nodes, p),
        tail := if p == t.tail then h.prev else t.tail,
        head := if h.prev == 0 then h.next else t.head,
        buckets := DropBucket(t.buckets, b, p, h.hhNext),
        items := t.items - 1);
      v' := View(Without(v.order, k), v.chains[b := Without(v.chains[b], j)]);
      DropBucketsOk(t.nodes, t.buckets, v.chains, p, j);
      TotalUpdate(v.chains, b, Without(v.chains[b], j));
      WithoutLength(v.chains[b], j);
      DroppedOrder(t.nodes, v.order, k);
      Ends(t.nodes, v.order, k);
      Remaining(t'.nodes, t.nodes, v.order, k);
      Together(t', v', hash, First(v'.order));
    }
  }

  lemma Facts(t: Table, v: View, hash: string -> nat, p: nat, k: nat)
    requires Inv(t, v, hash) && k < |v.order| && v.order[k] == p
    ensures t.head != 0 && 0 !in t.nodes && p in t.nodes && |t.buckets| == |v.chains| > 0 && KeysOk(t.nodes, hash)
    ensures BucketsOk(t.nodes, t.buckets, v.chains) && Linked(t.nodes, v.order) && Distinct(v.order)
    ensures t.head == First(v.order) && t.tail == Last(v.order) && t.items == |v.order| == Total(v.chains) && |t.buckets| == Pow2(t.log2)
    ensures forall q :: q in t.nodes <==> q in v.order
  {
    hide KeysOk, Linked, Total, BucketOk;
  }

  lemma OnlyItem(n: Nodes, d: Nodes, order: seq<nat>, k: nat)
    requires Linked(n, order) && Distinct(order) && k < |order| && order[k] in n && n[order[k]].prev == 0 && n[order[k]].next == 0
    requires (forall q :: q in n <==> q in order) && d.Keys == n.Keys - {order[k]}
    ensures d == map[] && Without(order, k) == []
  {
    assert LinkAt(n, order, k);
    assert order == [order[k]];
    assert d.Keys == {};
  }

  lemma Ends(n: Nodes, order: seq<nat>, k: nat)
    requires Linked(n, order) && Distinct(order) && k < |order| && order[k] in n && (n[order[k]].prev != 0 || n[order[k]].next != 0)
    ensures var s := Without(order, k);
            && s != [] && First(s) in s
            && First(s) == (if n[order[k]].prev == 0 then n[order[k]].next else First(order))
            && Last(s) == (if order[k] == Last(order) then n[order[k]].prev else Last(order))
  {
    assert LinkAt(n, order, k);
    if k > 0 { assert order[k - 1] in order; }
  }

  lemma Remaining(d: Nodes, n: Nodes, order: seq<nat>, k: nat)
    requires k < |order| && Distinct(order) && (forall q :: q in n <==> q in order) && d.Keys == n.Keys - {order[k]}
    ensures forall q :: q in d <==> q in Without(order, k)
    ensures |Without(order, k)| == |order| - 1
  {
    hide Without, Distinct;
    WithoutDistinct(order, k);
    WithoutLength(order, k);
  }

  // ---- the index of an application ----

  class HashRef {
    var t: Table
    const hash: string -> nat
    ghost var v: View
    ghost var index: map<string, nat>

    ghost predicate Valid()
      reads this
    {
      Inv(t, v, hash) && Agrees(t.nodes, index)
    }

    constructor (hash: string -> nat)
      ensures Valid() && this.hash == hash && index == map[] && t.nodes == map[]
    {
      t, this.hash, v, index := NONE, hash, View([], []), map[];
    }

    method Lookup(key: string) returns (out: nat)
      requires Valid()
      ensures out == if key in index then index[key] else 0
    {
      out := Find(t, key, hash, v, index);
    }

    method Insert(p: nat, key: string)
      requires Valid() && p != 0 && p !in t.nodes && key !in index
      modifies this
      ensures Valid() && index == old(index)[key := p] && v.order == old(v.order) + [p] && t.nodes.Keys == old(t.nodes.Keys) + {p}
    {
      hide Inv, Agrees;
      ghost var w;
      t, w := Add(t, p, key, hash, v, index);
      v, index := w, index[key := p];
    }

    method Remove(p: nat)
      requires Valid() && p in t.nodes
      modifies this
      ensures Valid() && index == old(index) - {old(t.nodes[p].key)} && t.nodes.Keys == old(t.nodes.Keys) - {p}
      ensures exists k :: 0 <= k < |old(v.order)| && old(v.order)[k] == p && v.order == Without(old(v.order), k)
    {
      hide Inv, Agrees, Without;
      ghost var w, key := v, t.nodes[p].key;
      t, w := Delete(t, p, hash, v, index);
      v, index := w, index - {key};
    }
  }

  // ---- runs ----

  datatype Op = AddKey(key: string) | DeleteKey(key: string) | FindKey(key: string)

  /** What an operation does to a plain map; item numbers are never used twice. */
  function Apply(m: map<string, nat>, op: Op, p: nat): map<string, nat> {
    match op
    case AddKey(k) => if k in m then m else m[k := p]
    case DeleteKey(k) => m - {k}
    case FindKey(_) => m
  }

  function Answer(m: map<string, nat>, k: string): nat {
    if k in m then m[k] else 0
  }

  /** The map after the first `n` operations. */
  function After(ops: seq<Op>, n: nat): map<string, nat>
    requires n <= |ops|
  {
    if n == 0 then map[] else Apply(After(ops, n - 1), ops[n - 1], n)
  }

  /** One operation; every operation looks its key up first. */
  method Perform(table: HashRef, op: Op, p: nat) returns (out: nat)
    requires table.Valid() && p != 0 && p !in table.t.nodes
    modifies table
    ensures table.Valid() && table.index == Apply(old(table.index), op, p) && out == Answer(old(table.index), op.key)
    ensures table.t.nodes.Keys <= old(table.t.nodes.Keys) + {p}
  {
    hide Inv, Agrees, Without;
    out := table.Lookup(op.key);
    ItemOfKey(table.t, table.index, op.key, table.v, table.hash);
    if op.AddKey? && out == 0 {
      table.Insert(p, op.key);
    } else if op.DeleteKey? && out != 0 {
      table.Remove(out);
    } else if op.DeleteKey? {
      assert table.index - {op.key} == table.index;
    }
  }

  /** An item that is found is not null and has the key. */
  lemma ItemOfKey(t: Table, m: map<string, nat>, key: string, v: View, hash: string -> nat)
    requires Inv(t, v, hash) && Agrees(t.nodes, m)
    ensures Answer(m, key) == 0 <==> key !in m
    ensures key in m ==> m[key] in t.nodes && t.nodes[m[key]].key == key
  {
    hide Linked, KeysOk, BucketsOk, Total;
  }

  /** What the lookups of the first `n` operations should give. */
  function Expected(ops: seq<Op>, n: nat): seq<nat>
    requires n <= |ops|
  {
    if n == 0 then [] else Expected(ops, n - 1) + [Answer(After(ops, n - 1), ops[n - 1].key)]
  }

  lemma ExpectedStep(ops: seq<Op>, n: nat)
    requires n < |ops|
    ensures Expected(ops, n + 1) == Expected(ops, n) + [Answer(After(ops, n), ops[n].key)]
    ensures After(ops, n + 1) == Apply(After(ops, n), ops[n], n + 1)
  {}

  lemma ExpectedStart(ops: seq<Op>)
    ensures Expected(ops, 0) == [] && After(ops, 0) == map[]
  {}

  /** Every lookup of every run gives what the plain map holds at that moment, through any number of doublings. */
  method Replay(ops: seq<Op>, hash: string -> nat) returns (found: seq<nat>)
    ensures found == Expected(ops, |ops|)
  {
    hide *;
    var table := new HashRef(hash);
    found := [];
    var i: nat := 0;
    ExpectedStart(ops);
    while i < |ops|
      invariant i <= |ops| && table.Valid() && table.index == After(ops, i) && found == Expected(ops, i)
      invariant fresh(table) && forall p | p in table.t.nodes.Keys :: p <= i
    {
      ExpectedStep(ops, i);
      var out := Perform(table, ops[i], i + 1);
      found := found + [out];
      i := i + 1;
    }
  }
}
