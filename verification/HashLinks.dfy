/** The two doubly linked lists of uthash: the application order and the chains of the buckets. */
module HashLinks {
  /** UT_hash_handle. Items are numbered; 0 stands for NULL. */
  datatype Handle = Handle(key: string, hashv: nat, prev: nat, next: nat, hhPrev: nat, hhNext: nat)

  type Nodes = map<nat, Handle>

  function Before(s: seq<nat>, i: nat): nat
    requires i < |s|
  {
    if i == 0 then 0 else s[i - 1]
  }

  function After(s: seq<nat>, i: nat): nat
    requires i < |s|
  {
    if i + 1 == |s| then 0 else s[i + 1]
  }

  function First(s: seq<nat>): nat { if s == [] then 0 else s[0] }
  function Last(s: seq<nat>): nat { if s == [] then 0 else s[|s| - 1] }

  predicate Distinct(s: seq<nat>) {
    0 !in s && forall i, j | 0 <= i < j < |s| :: s[i] != s[j]
  }

  predicate LinkAt(n: Nodes, s: seq<nat>, i: nat)
    requires i < |s|
  {
    s[i] in n && n[s[i]].prev == Before(s, i) && n[s[i]].next == After(s, i)
  }

  /** `next` and `prev` run through `s`, forth and back. */
  predicate Linked(n: Nodes, s: seq<nat>) {
    forall i | 0 <= i < |s| :: LinkAt(n, s, i)
  }

  predicate ChainAt(n: Nodes, s: seq<nat>, i: nat)
    requires i < |s|
  {
    s[i] in n && n[s[i]].hhPrev == Before(s, i) && n[s[i]].hhNext == After(s, i)
  }

  /** `hh_next` and `hh_prev` run through `s`, forth and back. */
  predicate Chained(n: Nodes, s: seq<nat>) {
    forall i | 0 <= i < |s| :: ChainAt(n, s, i)
  }

  predicate ForwardAt(n: Nodes, s: seq<nat>, i: nat)
    requires i < |s|
  {
    s[i] in n && n[s[i]].hhNext == After(s, i)
  }

  /** Only `hh_next` is to be relied on. */
  predicate Forward(n: Nodes, s: seq<nat>) {
    forall i | 0 <= i < |s| :: ForwardAt(n, s, i)
  }

  lemma ChainedForward(n: Nodes, s: seq<nat>)
    requires Chained(n, s)
    ensures Forward(n, s)
  {
    forall i | 0 <= i < |s| ensures ForwardAt(n, s, i) { assert ChainAt(n, s, i); }
  }

  // ---- assignments through a link that may be NULL ----

  function SetNext(n: Nodes, p: nat, x: nat): Nodes { if p in n then n[p := n[p].(next := x)] else n }
  function SetPrev(n: Nodes, p: nat, x: nat): Nodes { if p in n then n[p := n[p].(prev := x)] else n }
  function SetHhNext(n: Nodes, p: nat, x: nat): Nodes { if p in n then n[p := n[p].(hhNext := x)] else n }
  function SetHhPrev(n: Nodes, p: nat, x: nat): Nodes { if p in n then n[p := n[p].(hhPrev := x)] else n }

  /** The items are the same, and so are their keys. */
  predicate SameItems(n: Nodes, m: Nodes) {
    n.Keys == m.Keys && forall p | p in n :: n[p].key == m[p].key && n[p].hashv == m[p].hashv
  }

  predicate SameOrder(n: Nodes, m: Nodes, s: seq<nat>) {
    forall p | p in s && p in n :: p in m && m[p].prev == n[p].prev && m[p].next == n[p].next
  }

  predicate SameChain(n: Nodes, m: Nodes, s: seq<nat>) {
    forall p | p in s && p in n :: p in m && m[p].hhPrev == n[p].hhPrev && m[p].hhNext == n[p].hhNext
  }

  lemma LinkedStays(n: Nodes, m: Nodes, s: seq<nat>)
    requires Linked(n, s) && SameOrder(n, m, s)
    ensures Linked(m, s)
  {
    forall i | 0 <= i < |s| ensures LinkAt(m, s, i) { assert LinkAt(n, s, i) && s[i] in s; }
  }

  lemma ChainedStays(n: Nodes, m: Nodes, s: seq<nat>)
    requires Chained(n, s) && SameChain(n, m, s)
    ensures Chained(m, s)
  {
    forall i | 0 <= i < |s| ensures ChainAt(m, s, i) { assert ChainAt(n, s, i) && s[i] in s; }
  }

  // ---- the application order ----

  /** HASH_ADD_KEYPTR: the new item goes behind the tail. */
  function Append(n: Nodes, tail: nat, p: nat, h: Handle): Nodes {
    SetNext(n, tail, p)[p := h.(prev := tail, next := 0)]
  }

  lemma AppendLinks(n: Nodes, s: seq<nat>, p: nat, h: Handle)
    requires Linked(n, s) && Distinct(s) && p !in s && p != 0
    ensures var m := Append(n, Last(s), p, h);
            Linked(m, s + [p]) && Distinct(s + [p]) && m.Keys == n.Keys + {p}
  {
    var m, t := Append(n, Last(s), p, h), s + [p];
    if s != [] { assert LinkAt(n, s, |s| - 1); }
    forall i | 0 <= i < |t| ensures LinkAt(m, t, i) {
      if i < |s| { assert LinkAt(n, s, i); }
    }
  }

  /** HASH_DELETE: the neighbours are tied together. */
  function Unlink(n: Nodes, p: nat): Nodes
    requires p in n
  {
    SetPrev(SetNext(n, n[p].prev, n[p].next), n[p].next, n[p].prev)
  }

  function Without(s: seq<nat>, k: nat): seq<nat>
    requires k < |s|
  {
    s[..k] + s[k + 1..]
  }

  lemma WithoutAt(s: seq<nat>, k: nat, i: nat)
    requires k < |s| && i < |s| - 1
    ensures Without(s, k)[i] == if i < k then s[i] else s[i + 1]
  {}

  lemma UnlinkLinks(n: Nodes, s: seq<nat>, k: nat)
    requires Linked(n, s) && Distinct(s) && k < |s| && 0 !in n
    ensures s[k] in n && Linked(Unlink(n, s[k]), Without(s, k)) && Unlink(n, s[k]).Keys == n.Keys
  {
    assert LinkAt(n, s, k);
    var m, t := Unlink(n, s[k]), Without(s, k);
    forall i | 0 <= i < |t| ensures LinkAt(m, t, i) {
      WithoutAt(s, k, i);
      if i > 0 { WithoutAt(s, k, i - 1); }
      if i + 1 < |t| { WithoutAt(s, k, i + 1); }
      var j := if i < k then i else i + 1;
      assert LinkAt(n, s, j);
    }
  }

  // ---- the chain of a bucket ----

  /** HASH_ADD_TO_BKT: the item goes in front of the chain. */
  function Push(n: Nodes, head: nat, p: nat): Nodes
    requires p in n
  {
    var m := SetHhPrev(n, head, p);
    m[p := m[p].(hhNext := head, hhPrev := 0)]
  }

  lemma PushChains(n: Nodes, s: seq<nat>, p: nat)
    requires Chained(n, s) && Distinct(s) && p !in s && p in n && p != 0
    ensures var m := Push(n, First(s), p);
            Chained(m, [p] + s) && Distinct([p] + s) && m.Keys == n.Keys
  {
    var m, t := Push(n, First(s), p), [p] + s;
    if s != [] { assert ChainAt(n, s, 0); }
    forall i | 0 <= i < |t| ensures ChainAt(m, t, i) {
      if i > 0 { assert ChainAt(n, s, i - 1); }
    }
  }

  /** HASH_DEL_IN_BKT: the neighbours in the chain are tied together. */
  function Unchain(n: Nodes, p: nat): Nodes
    requires p in n
  {
    SetHhPrev(SetHhNext(n, n[p].hhPrev, n[p].hhNext), n[p].hhNext, n[p].hhPrev)
  }

  lemma UnchainChains(n: Nodes, s: seq<nat>, k: nat)
    requires Chained(n, s) && Distinct(s) && k < |s| && 0 !in n
    ensures s[k] in n && Chained(Unchain(n, s[k]), Without(s, k)) && Unchain(n, s[k]).Keys == n.Keys
  {
    assert ChainAt(n, s, k);
    var m, t := Unchain(n, s[k]), Without(s, k);
    forall i | 0 <= i < |t| ensures ChainAt(m, t, i) {
      WithoutAt(s, k, i);
      if i > 0 { WithoutAt(s, k, i - 1); }
      if i + 1 < |t| { WithoutAt(s, k, i + 1); }
      var j := if i < k then i else i + 1;
      assert ChainAt(n, s, j);
    }
  }

  lemma WithoutDistinct(s: seq<nat>, k: nat)
    requires Distinct(s) && k < |s|
    ensures Distinct(Without(s, k)) && (forall p :: p in Without(s, k) <==> p in s && p != s[k])
  {
    var t := Without(s, k);
    forall i, j | 0 <= i < j < |t| ensures t[i] != t[j] {
      WithoutAt(s, k, i);
      WithoutAt(s, k, j);
    }
  }
}
