/**
  Doubly linked chains of key/value nodes, as used by both `pkg/basic/linked_hash_map.go`
  and `pkg/cache/lru.go`, and the sequences of entries that they stand for.
 */
module Chains {

  // ---------- sequences of entries ----------

  type Entries<K, V> = seq<(K, V)>

  predicate Has<K(==), V>(s: Entries<K, V>, k: K) {
    exists i :: 0 <= i < |s| && s[i].0 == k
  }

  ghost predicate Unique<K, V>(s: Entries<K, V>) {
    forall i, j :: 0 <= i < j < |s| ==> s[i].0 != s[j].0
  }

  function Lookup<K(==), V>(s: Entries<K, V>, k: K): (v: V)
    requires Has(s, k)
  {
    if s[0].0 == k then s[0].1 else Lookup(s[1..], k)
  }

  // All entries but that of `k`, in order.
  function Without<K(==), V>(s: Entries<K, V>, k: K): Entries<K, V> {
    if s == [] then []
    else if s[0].0 == k then Without(s[1..], k)
    else [s[0]] + Without(s[1..], k)
  }

  function ToFront<K(==), V>(s: Entries<K, V>, k: K): Entries<K, V> {
    if Has(s, k) then [(k, Lookup(s, k))] + Without(s, k) else s
  }

  function KeysOf<K, V>(s: Entries<K, V>): seq<K> {
    seq(|s|, i requires 0 <= i < |s| => s[i].0)
  }

  lemma {:induction false} WithoutAbsent<K, V>(s: Entries<K, V>, k: K)
    requires !Has(s, k)
    ensures Without(s, k) == s
  {
    if s != [] {
      assert forall i :: 0 <= i < |s| - 1 ==> s[1..][i] == s[i + 1];
      WithoutAbsent(s[1..], k);
    }
  }

  ghost function Cut<T>(s: seq<T>, i: nat): seq<T>
    requires i < |s|
  {
    s[..i] + s[i + 1..]
  }

  lemma CutTail<T>(s: seq<T>, i: nat)
    requires 0 < i < |s|
    ensures Cut(s, i) == [s[0]] + Cut(s[1..], i - 1)
  {
  }

  lemma CutFirst<T>(s: seq<T>)
    requires s != []
    ensures Cut(s, 0) == s[1..] && [s[0]] + Cut(s, 0) == s
  {
  }

  lemma TailEntries<K, V>(s: Entries<K, V>)
    requires Unique(s) && s != []
    ensures Unique(s[1..]) && !Has(s[1..], s[0].0)
  {
  }

  /** Removing a key cuts its one entry out. */
  lemma {:induction false} WithoutAt<K, V>(s: Entries<K, V>, i: nat)
    requires Unique(s) && i < |s|
    ensures Without(s, s[i].0) == Cut(s, i)
    ensures Has(s, s[i].0) && Lookup(s, s[i].0) == s[i].1
  {
    TailEntries(s);
    if i == 0 {
      WithoutAbsent(s[1..], s[0].0);
      CutFirst(s);
    } else {
      assert s[0].0 != s[i].0 && s[1..][i - 1] == s[i];
      hide Unique, Cut;
      WithoutAt(s[1..], i - 1);
      CutTail(s, i);
    }
  }

  lemma {:induction false} WithoutKeys<K(!new), V>(s: Entries<K, V>, k: K)
    ensures !Has(Without(s, k), k)
    ensures forall x :: x != k ==> (Has(Without(s, k), x) <==> Has(s, x))
    ensures Unique(s) ==> Unique(Without(s, k))
  {
    if s == [] {
    } else {
      WithoutKeys(s[1..], k);
      var rest := Without(s[1..], k);
      assert s == [s[0]] + s[1..];
      HasCons(s[0], s[1..]);
      HasCons(s[0], rest);
    }
  }

  lemma HasCons<K(!new), V>(e: (K, V), s: Entries<K, V>)
    ensures forall x :: Has([e] + s, x) <==> e.0 == x || Has(s, x)
    ensures Unique([e] + s) <==> Unique(s) && !Has(s, e.0)
  {
    forall x ensures Has([e] + s, x) <==> e.0 == x || Has(s, x) {
      if Has(s, x) {
        var i :| 0 <= i < |s| && s[i].0 == x;
        assert ([e] + s)[i + 1].0 == x;
      }
      if e.0 == x {
        assert ([e] + s)[0].0 == x;
      }
    }
    if Unique([e] + s) {
      forall i, j | 0 <= i < j < |s| ensures s[i].0 != s[j].0 {
        assert ([e] + s)[i + 1].0 != ([e] + s)[j + 1].0;
      }
      forall i | 0 <= i < |s| ensures s[i].0 != e.0 {
        assert ([e] + s)[0].0 != ([e] + s)[i + 1].0;
      }
    }
  }

  // ---------- nodes ----------

  class Node<K, V> {
    const key: K
    var value: V
    var prev: Node?<K, V>
    var next: Node?<K, V>

    constructor (key: K, value: V)
      ensures this.key == key && this.value == value && prev == null && next == null
    {
      this.key, this.value := key, value;
      prev, next := null, null;
    }
  }

  // `nodes` is the chain from `head` to `tail`: acyclic, and `prev` mirrors `next`.
  ghost predicate Chain<K, V>(nodes: seq<Node<K, V>>, head: Node?<K, V>, tail: Node?<K, V>)
    reads nodes
  {
    && (forall i, j :: 0 <= i < j < |nodes| ==> nodes[i] != nodes[j])
    && (forall i {:trigger nodes[i].prev} :: 0 <= i < |nodes| ==> nodes[i].prev == if i == 0 then null else nodes[i - 1])
    && (forall i {:trigger nodes[i].next} :: 0 <= i < |nodes| ==> nodes[i].next == if i == |nodes| - 1 then null else nodes[i + 1])
    && head == (if nodes == [] then null else nodes[0])
    && tail == (if nodes == [] then null else nodes[|nodes| - 1])
  }

  ghost function EntriesOf<K, V>(nodes: seq<Node<K, V>>): (s: Entries<K, V>)
    reads nodes
    ensures |s| == |nodes|
    ensures forall i :: 0 <= i < |nodes| ==> s[i] == (nodes[i].key, nodes[i].value)
  {
    seq(|nodes|, i requires 0 <= i < |nodes| reads nodes => (nodes[i].key, nodes[i].value))
  }

  // Relinking changes no value, so what remains of the entries is as before.
  lemma EntriesCut<K, V>(nodes: seq<Node<K, V>>, before: Entries<K, V>, i: nat)
    requires i < |nodes| && EntriesOf(nodes) == before
    ensures EntriesOf(Cut(nodes, i)) == Cut(before, i)
  {
    var rest := Cut(nodes, i);
    assert forall j :: 0 <= j < |rest| ==> rest[j] == nodes[if j < i then j else j + 1];
  }

  /** The relinking shared by Remove and moveToHead: node `i` leaves the chain. */
  method Unlink<K, V>(n: Node<K, V>, head: Node?<K, V>, tail: Node?<K, V>, ghost nodes: seq<Node<K, V>>, ghost i: nat)
    returns (head': Node?<K, V>, tail': Node?<K, V>)
    requires Chain(nodes, head, tail) && i < |nodes| && nodes[i] == n
    modifies nodes
    ensures Chain(Cut(nodes, i), head', tail')
    ensures EntriesOf(nodes) == old(EntriesOf(nodes)) && forall x :: x in nodes ==> x.value == old(x.value)
  {
    assert n.prev == (if i == 0 then null else nodes[i - 1]) && n.next == (if i == |nodes| - 1 then null else nodes[i + 1]);
    head', tail' := head, tail;
    if n.prev != null {
      n.prev.next := n.next;
    } else {
      head' := n.next;
    }
    if n.next != null {
      n.next.prev := n.prev;
    } else {
      tail' := n.prev;
    }
    ghost var rest := Cut(nodes, i);
    forall j | 0 <= j < |rest|
      ensures rest[j].prev == if j == 0 then null else rest[j - 1]
      ensures rest[j].next == if j == |rest| - 1 then null else rest[j + 1]
    {
      assert rest[j] == nodes[if j < i then j else j + 1];
    }
  }

  // Node `n` is number `i` of the chain, or new and in no chain.
  ghost predicate Placed<K, V>(n: Node<K, V>, nodes: seq<Node<K, V>>, i: nat)
    reads n
  {
    (i < |nodes| && nodes[i] == n) || (i == |nodes| && n !in nodes && n.prev == null && n.next == null)
  }

  ghost function CutAt<T>(s: seq<T>, i: nat): seq<T> {
    if i < |s| then Cut(s, i) else s
  }

  /** The same relinking as written in the LRU cache, for a new node or one that is not the head. */
  method Bypass<K, V>(n: Node<K, V>, ghost head: Node?<K, V>, tail: Node?<K, V>, ghost nodes: seq<Node<K, V>>, ghost i: nat)
    returns (tail': Node?<K, V>)
    requires Chain(nodes, head, tail) && Placed(n, nodes, i) && (i < |nodes| ==> 0 < i)
    modifies nodes
    ensures Chain(CutAt(nodes, i), head, tail')
    ensures EntriesOf(nodes) == old(EntriesOf(nodes)) && n.value == old(n.value)
  {
    LinksOf(n, head, tail, nodes, i);
    tail' := tail;
    if n.prev != null {
      n.prev.next := n.next;
    }
    if n.next != null {
      n.next.prev := n.prev;
    }
    if n == tail {
      tail' := n.prev;
    }
    if i < |nodes| {
      ghost var rest := Cut(nodes, i);
      forall j | 0 <= j < |rest|
        ensures rest[j].prev == if j == 0 then null else rest[j - 1]
        ensures rest[j].next == if j == |rest| - 1 then null else rest[j + 1]
      {
        assert rest[j] == nodes[if j < i then j else j + 1];
      }
      assert Chain(rest, head, tail');
    } else {
      assert Chain(nodes, head, tail');
    }
  }

  lemma LinksOf<K, V>(n: Node<K, V>, head: Node?<K, V>, tail: Node?<K, V>, nodes: seq<Node<K, V>>, i: nat)
    requires Chain(nodes, head, tail) && Placed(n, nodes, i) && (i < |nodes| ==> 0 < i)
    ensures i < |nodes| ==> n.prev == nodes[i - 1] && n.next == (if i == |nodes| - 1 then null else nodes[i + 1])
    ensures i == |nodes| ==> n.prev == null && n.next == null
    ensures n == tail <==> 0 < i == |nodes| - 1
  {
  }

  /** A node outside the chain becomes its head. */
  method PushFront<K, V>(n: Node<K, V>, head: Node?<K, V>, tail: Node?<K, V>, ghost nodes: seq<Node<K, V>>)
    returns (tail': Node?<K, V>)
    requires Chain(nodes, head, tail) && n !in nodes
    modifies nodes, n
    ensures Chain([n] + nodes, n, tail') && EntriesOf([n] + nodes) == [(n.key, n.value)] + old(EntriesOf(nodes))
    ensures n.value == old(n.value) && forall x :: x in nodes ==> x.value == old(x.value)
  {
    n.prev := null;
    n.next := head;
    if head != null {
      head.prev := n;
    }
    tail' := tail;
    if tail == null {
      tail' := n;
    }
    ghost var all := [n] + nodes;
    forall j | 0 < j < |all|
      ensures all[j].prev == all[j - 1]
      ensures all[j].next == if j == |all| - 1 then null else all[j + 1]
    {
      assert all[j] == nodes[j - 1];
    }
  }

  // ---------- the index of a chain ----------

  // The map's nodes are exactly the chain's nodes, each under its own key.
  ghost predicate Indexed<K, V>(items: map<K, Node<K, V>>, nodes: seq<Node<K, V>>) {
    && (forall i :: 0 <= i < |nodes| ==> nodes[i].key in items && items[nodes[i].key] == nodes[i])
    && (forall k :: k in items ==> items[k].key == k && items[k] in nodes)
  }

  ghost predicate Distinct<T>(s: seq<T>) {
    forall i, j :: 0 <= i < j < |s| ==> s[i] != s[j]
  }

  lemma IndexedEntries<K, V>(items: map<K, Node<K, V>>, nodes: seq<Node<K, V>>)
    requires Indexed(items, nodes) && Distinct(nodes)
    ensures Unique(EntriesOf(nodes))
    ensures forall k :: k in items ==> Has(EntriesOf(nodes), k)
    ensures forall k :: Has(EntriesOf(nodes), k) ==> k in items
  {
    var s := EntriesOf(nodes);
    forall k | k in items ensures Has(s, k) {
      var i :| 0 <= i < |nodes| && nodes[i] == items[k];
      assert s[i].0 == k;
    }
  }

  lemma IndexedCut<K, V>(items: map<K, Node<K, V>>, nodes: seq<Node<K, V>>, i: nat)
    requires Indexed(items, nodes) && Distinct(nodes) && i < |nodes|
    ensures Indexed(items - {nodes[i].key}, Cut(nodes, i))
  {
    var rest, items' := Cut(nodes, i), items - {nodes[i].key};
    forall j | 0 <= j < |rest| ensures rest[j].key in items' && items'[rest[j].key] == rest[j] {
      assert rest[j] == nodes[if j < i then j else j + 1];
    }
    forall k | k in items' ensures items'[k].key == k && items'[k] in rest {
      var j :| 0 <= j < |nodes| && nodes[j] == items[k];
      assert rest[if j < i then j else j - 1] == nodes[j];
    }
  }

  lemma IndexedAdd<K, V>(items: map<K, Node<K, V>>, nodes: seq<Node<K, V>>, n: Node<K, V>, all: seq<Node<K, V>>)
    requires Indexed(items, nodes) && n.key !in items && (all == [n] + nodes || all == nodes + [n])
    ensures Indexed(items[n.key := n], all)
  {
    assert n in all && forall x :: x in all <==> x in nodes || x == n;
  }

  lemma IndexOf<K, V>(items: map<K, Node<K, V>>, nodes: seq<Node<K, V>>, k: K) returns (i: nat)
    requires Indexed(items, nodes) && k in items
    ensures i < |nodes| && nodes[i] == items[k] && nodes[i].key == k
  {
    i :| 0 <= i < |nodes| && nodes[i] == items[k];
  }

  lemma ChainDistinct<K, V>(nodes: seq<Node<K, V>>, head: Node?<K, V>, tail: Node?<K, V>)
    requires Chain(nodes, head, tail)
    ensures Distinct(nodes)
  {
  }

  // Moving a node to the front of the chain leaves the index right.
  lemma IndexedMove<K, V>(items: map<K, Node<K, V>>, nodes: seq<Node<K, V>>, i: nat)
    requires Indexed(items, nodes) && Distinct(nodes) && i < |nodes|
    ensures Indexed(items, [nodes[i]] + Cut(nodes, i))
  {
    CutMembers(nodes, i);
    var all := [nodes[i]] + Cut(nodes, i);
    forall j | 0 <= j < |all| ensures all[j].key in items && items[all[j].key] == all[j] {
      assert all[j] in nodes;
    }
  }

  lemma CutMembers<T>(s: seq<T>, i: nat)
    requires Distinct(s) && i < |s|
    ensures s[i] !in Cut(s, i)
    ensures forall x :: x in Cut(s, i) ==> x in s
    ensures forall x :: x in [s[i]] + Cut(s, i) <==> x in s
  {
    assert s == s[..i] + [s[i]] + s[i + 1..];
  }

  // A set indexed without repetition by a sequence is as large as the sequence is long.
  lemma {:induction false} DistinctCardinality<T>(s: seq<T>, all: set<T>)
    requires forall i, j :: 0 <= i < j < |s| ==> s[i] != s[j]
    requires forall x :: x in all <==> x in s
    ensures |all| == |s|
  {
    if s == [] {
      assert all == {};
    } else {
      var last := s[|s| - 1];
      var rest := s[..|s| - 1];
      assert s == rest + [last];
      DistinctCardinality(rest, all - {last});
    }
  }

  lemma IndexedSize<K, V>(items: map<K, Node<K, V>>, nodes: seq<Node<K, V>>)
    requires Indexed(items, nodes) && Distinct(nodes)
    ensures |items| == |nodes|
  {
    var keys := seq(|nodes|, i requires 0 <= i < |nodes| => nodes[i].key);
    forall k | k in items ensures k in keys {
      var i :| 0 <= i < |nodes| && nodes[i] == items[k];
      assert keys[i] == k;
    }
    DistinctCardinality(keys, items.Keys);
  }
}
