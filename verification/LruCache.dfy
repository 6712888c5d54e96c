/** `pkg/cache/lru.go`: a capacity-bounded map with a recency chain. */
module LruCaches {
  import opened Options
  import opened Chains

  // ---------- the recency list ----------

  // Most recently used first; the last entry goes when there are too many.
  function Trimmed<K, V>(s: Entries<K, V>, capacity: nat): Entries<K, V> {
    if |s| > capacity then s[..|s| - 1] else s
  }

  function AfterPut<K(==), V>(s: Entries<K, V>, capacity: nat, k: K, v: V): Entries<K, V> {
    Trimmed([(k, v)] + Without(s, k), capacity)
  }

  datatype Op<K, V> = Get(k: K) | Put(k: K, v: V)

  function AfterOp<K(==), V>(s: Entries<K, V>, capacity: nat, op: Op<K, V>): Entries<K, V> {
    match op
    case Get(k) => ToFront(s, k)
    case Put(k, v) => AfterPut(s, capacity, k, v)
  }

  function AfterOps<K(==), V>(capacity: nat, ops: seq<Op<K, V>>): Entries<K, V> {
    if ops == [] then [] else AfterOp(AfterOps(capacity, ops[..|ops| - 1]), capacity, ops[|ops| - 1])
  }

  // ---------- the cache ----------

  class LRUCache<K(==,!new), V> {
    const capacity: nat
    var items: map<K, Node<K, V>>
    var head: Node?<K, V>
    var tail: Node?<K, V>
    ghost var nodes: seq<Node<K, V>>

    ghost predicate Valid()
      reads this, nodes
    {
      Chain(nodes, head, tail) && Indexed(items, nodes)
    }

    // The entries, most recently used first.
    ghost function Contents(): (s: Entries<K, V>)
      reads this, nodes
      ensures |s| == |nodes|
    {
      EntriesOf(nodes)
    }

    constructor (capacity: nat)
      requires 0 < capacity
      ensures Valid() && Contents() == [] && this.capacity == capacity
    {
      this.capacity := capacity;
      items := map[];
      head, tail := null, null;
      nodes := [];
    }

    lemma Position(k: K) returns (i: nat)
      requires Valid() && k in items
      ensures i < |nodes| && nodes[i] == items[k] && nodes[i].key == k
      ensures Contents()[i] == (k, items[k].value)
      ensures Has(Contents(), k) && Lookup(Contents(), k) == items[k].value
      ensures Without(Contents(), k) == Cut(Contents(), i)
      ensures Indexed(items, [nodes[i]] + Cut(nodes, i)) && Distinct(nodes)
    {
      hide Unique, Has, Without, Lookup, Chain, Indexed, Cut, Distinct;
      i := IndexOf(items, nodes, k);
      ChainDistinct(nodes, head, tail);
      IndexedEntries(items, nodes);
      WithoutAt(Contents(), i);
      IndexedMove(items, nodes, i);
    }

    lemma Absent(k: K)
      requires Valid() && k !in items
      ensures !Has(Contents(), k) && Without(Contents(), k) == Contents()
    {
      IndexedEntries(items, nodes);
      WithoutAbsent(Contents(), k);
    }

    // The first half of moveToHead: node `n`, which is not the head, leaves the chain if it is in it.
    method Detach(n: Node<K, V>, ghost i: nat)
      requires Chain(nodes, head, tail) && Placed(n, nodes, i) && (i < |nodes| ==> 0 < i)
      modifies this`tail, this`nodes, nodes
      ensures Chain(nodes, head, tail) && nodes == CutAt(old(nodes), i)
      ensures n.value == old(n.value) && EntriesOf(nodes) == CutAt(old(EntriesOf(nodes)), i)
      ensures i == |old(nodes)| ==> n.prev == null && n.next == null
    {
      hide Chain, EntriesOf, Cut;
      tail := Bypass(n, head, tail, nodes, i);
      if i < |nodes| {
        EntriesCut(nodes, old(EntriesOf(nodes)), i);
      }
      nodes := CutAt(nodes, i);
    }

    // The second half: a node outside the chain becomes its head.
    method Attach(n: Node<K, V>)
      requires Chain(nodes, head, tail) && n !in nodes && (head == null ==> n.next == null && n.prev == null)
      modifies this`head, this`tail, this`nodes, nodes, n
      ensures Chain(nodes, head, tail) && nodes == [n] + old(nodes)
      ensures EntriesOf(nodes) == [(n.key, old(n.value))] + old(EntriesOf(nodes))
    {
      if head != null {
        head.prev := n;
        n.next := head;
        head := n;
        n.prev := null;
      } else {
        head := n;
        tail := n;
      }
      ghost var all := [n] + nodes;
      forall j | 0 < j < |all|
        ensures all[j].prev == all[j - 1]
        ensures all[j].next == if j == |all| - 1 then null else all[j + 1]
      {
        assert all[j] == nodes[j - 1];
      }
      nodes := all;
    }

    // moveToHead, of a node of the chain or a new one.
    method MoveToHead(n: Node<K, V>, ghost i: nat)
      requires Chain(nodes, head, tail) && Placed(n, nodes, i)
      modifies this`head, this`tail, this`nodes, nodes, n
      ensures Chain(nodes, head, tail) && nodes == [n] + CutAt(old(nodes), i)
      ensures EntriesOf(nodes) == [(n.key, old(n.value))] + CutAt(old(EntriesOf(nodes)), i)
    {
      WhereIs(n, i);
      if head == n {
        CutFirst(nodes);
        CutFirst(EntriesOf(nodes));
        return;
      }
      hide Chain, Cut;
      Detach(n, i);
      Attach(n);
    }

    lemma WhereIs(n: Node<K, V>, i: nat)
      requires Chain(nodes, head, tail) && Placed(n, nodes, i)
      ensures head == n <==> i == 0 && nodes != []
      ensures n !in CutAt(nodes, i) && (i < |nodes| && 0 < i ==> CutAt(nodes, i) != [])
    {
      if i < |nodes| {
        assert Distinct(nodes);
        CutMembers(nodes, i);
      }
    }

    method GetValue(k: K) returns (v: Option<V>)
      requires Valid()
      modifies this, nodes
      ensures Valid() && Contents() == AfterOp(old(Contents()), capacity, Get(k))
      ensures v == if Has(old(Contents()), k) then Some(Lookup(old(Contents()), k)) else None
      ensures forall x :: x in nodes <==> x in old(nodes)
    {
      hide Chain, Indexed, Unique, Has, Without, Lookup, Cut;
      if k !in items {
        Absent(k);
        return None;
      }
      var n := items[k];
      v := Some(n.value);
      ghost var i := Position(k);
      MoveToHead(n, i);
      CutMembers(old(nodes), i);
    }

    method PutValue(k: K, v: V)
      requires Valid() && |Contents()| <= capacity && 0 < capacity
      modifies this, nodes
      ensures Valid() && Contents() == AfterOp(old(Contents()), capacity, Put(k, v))
      ensures |Contents()| <= capacity
      ensures forall x :: x in nodes ==> x in old(nodes) || fresh(x)
    {
      hide Chain, Indexed, Unique, Has, Without, Lookup, Cut;
      if k in items {
        PutExisting(k, v);
      } else {
        PutNew(k, v);
      }
      assert forall j :: 0 <= j < |nodes| ==> nodes[j] in old(nodes) || fresh(nodes[j]);
      Size();
      if |items| > capacity {
        RemoveTail();
      }
    }

    lemma Size()
      requires Valid()
      ensures |items| == |Contents()|
    {
      IndexedSize(items, nodes);
    }

    method PutNew(k: K, v: V)
      requires Valid() && k !in items
      modifies this, nodes
      ensures Valid() && Contents() == [(k, v)] + Without(old(Contents()), k)
      ensures |Contents()| == |old(Contents())| + 1
      ensures forall x :: x in nodes ==> x in old(nodes) || fresh(x)
    {
      hide Chain, Indexed, Has, Without, Lookup;
      Absent(k);
      var n := new Node(k, v);
      IndexedAdd(items, nodes, n, [n] + nodes);
      MoveToHead(n, |nodes|);
      items := items[k := n];
    }

    method PutExisting(k: K, v: V)
      requires Valid() && k in items
      modifies this, nodes
      ensures Valid() && Contents() == [(k, v)] + Without(old(Contents()), k)
      ensures |Contents()| == |old(Contents())|
      ensures forall x :: x in nodes ==> x in old(nodes)
    {
      hide Chain, Indexed, Has, Unique, Without, Lookup;
      var n := items[k];
      ghost var i := Position(k);
      ghost var before := Contents();
      SetValue(n, v, i);
      CutUpdated(before, i, (k, v));
      hide Cut;
      MoveToHead(n, i);
      assert items[k := n] == items;
      items := items[k := n];
      CutMembers(old(nodes), i);
    }

    lemma CutUpdated(s: Entries<K, V>, i: nat, e: (K, V))
      requires i < |s|
      ensures Cut(s[i := e], i) == Cut(s, i) && |Cut(s, i)| == |s| - 1
    {
    }

    method SetValue(n: Node<K, V>, v: V, ghost i: nat)
      requires Valid() && i < |nodes| && nodes[i] == n
      modifies n`value
      ensures Valid() && Contents() == old(Contents())[i := (n.key, v)]
    {
      n.value := v;
    }

    method RemoveTail()
      requires Valid() && Contents() != []
      modifies this, nodes
      ensures Valid() && Contents() == old(Contents())[..|old(Contents())| - 1]
      ensures forall x :: x in nodes ==> x in old(nodes)
    {
      hide Indexed, Chain, Distinct, Cut;
      LastNode();
      var key := tail.key;
      DropLast();
      items := items - {key};
    }

    lemma LastNode()
      requires Valid() && nodes != []
      ensures tail == nodes[|nodes| - 1] && |items| == |nodes|
      ensures Indexed(items - {tail.key}, nodes[..|nodes| - 1])
    {
      assert Distinct(nodes);
      IndexedSize(items, nodes);
      IndexedCut(items, nodes, |nodes| - 1);
      hide Indexed;
      assert Cut(nodes, |nodes| - 1) == nodes[..|nodes| - 1];
    }

    // removeTail's relinking; `items` still has the key.
    method DropLast()
      requires Chain(nodes, head, tail) && nodes != [] && |items| == |nodes|
      modifies this`head, this`tail, this`nodes, nodes
      ensures Chain(nodes, head, tail) && nodes == old(nodes)[..|old(nodes)| - 1]
      ensures EntriesOf(nodes) == old(EntriesOf(nodes))[..|old(nodes)| - 1]
    {
      if |items| == 1 {
        head := null;
        tail := null;
      } else {
        assert tail == nodes[|nodes| - 1] && tail.prev == nodes[|nodes| - 2];
        tail.prev.next := null;
        tail := tail.prev;
      }
      nodes := nodes[..|nodes| - 1];
    }
  }

  // ---------- two caches of different capacities ----------

  ghost function KeySet<K, V>(s: Entries<K, V>): set<K> {
    set e | e in s :: e.0
  }

  // The entries whose key is in `keys`, in order.
  ghost function Restrict<K, V>(s: Entries<K, V>, keys: set<K>): Entries<K, V> {
    if s == [] then [] else (if s[0].0 in keys then [s[0]] else []) + Restrict(s[1..], keys)
  }

  lemma KeySetHas<K, V>(s: Entries<K, V>, k: K)
    ensures k in KeySet(s) <==> Has(s, k)
  {
    if k in KeySet(s) {
      var e :| e in s && e.0 == k;
      var i :| 0 <= i < |s| && s[i] == e;
    }
    if Has(s, k) {
      var i :| 0 <= i < |s| && s[i].0 == k;
      assert s[i] in s;
    }
  }

  lemma {:induction false} RestrictAppend<K, V>(a: Entries<K, V>, b: Entries<K, V>, keys: set<K>)
    ensures Restrict(a + b, keys) == Restrict(a, keys) + Restrict(b, keys)
  {
    hide Restrict;
    if a == [] {
      RestrictNone<K, V>(keys);
      assert a + b == b;
    } else {
      var e, rest := a[0], a[1..];
      assert a == [e] + rest && a + b == [e] + (rest + b);
      RestrictAppend(rest, b, keys);
      RestrictCons(e, rest, keys);
      RestrictCons(e, rest + b, keys);
    }
  }

  lemma RestrictNone<K, V>(keys: set<K>)
    ensures Restrict<K, V>([], keys) == []
  {
  }

  lemma RestrictCons<K, V>(e: (K, V), s: Entries<K, V>, keys: set<K>)
    ensures Restrict([e] + s, keys) == if e.0 in keys then [e] + Restrict(s, keys) else Restrict(s, keys)
  {
    assert ([e] + s)[1..] == s;
  }

  lemma WithoutCons<K, V>(e: (K, V), s: Entries<K, V>, k: K)
    ensures Without([e] + s, k) == if e.0 == k then Without(s, k) else [e] + Without(s, k)
  {
    assert ([e] + s)[1..] == s;
  }

  lemma {:induction false} RestrictWithout<K, V>(s: Entries<K, V>, keys: set<K>, k: K)
    ensures Restrict(Without(s, k), keys) == Without(Restrict(s, keys), k)
    ensures Restrict(s, keys - {k}) == Without(Restrict(s, keys), k)
  {
    if s != [] {
      hide Restrict, Without;
      var e, rest := s[0], s[1..];
      assert s == [e] + rest;
      RestrictWithout(rest, keys, k);
      RestrictCons(e, rest, keys);
      RestrictCons(e, rest, keys - {k});
      RestrictCons(e, Without(rest, k), keys);
      WithoutCons(e, rest, k);
      WithoutCons(e, Restrict(rest, keys), k);
    }
  }

  // `small` is what `large` shows of the keys of `small`, and is as full as it can be.
  ghost predicate Included<K, V>(small: Entries<K, V>, large: Entries<K, V>, k: nat) {
    && Unique(small) && Unique(large)
    && small == Restrict(large, KeySet(small))
    && |small| == if |large| < k then |large| else k
  }

  lemma LookupCons<K(!new), V>(e: (K, V), s: Entries<K, V>, x: K)
    ensures Has([e] + s, x) <==> e.0 == x || Has(s, x)
    ensures Has([e] + s, x) ==> Lookup([e] + s, x) == if e.0 == x then e.1 else Lookup(s, x)
  {
    HasCons(e, s);
    assert ([e] + s)[1..] == s;
  }

  lemma {:induction false} RestrictLookup<K(!new), V>(s: Entries<K, V>, keys: set<K>, x: K)
    ensures Has(Restrict(s, keys), x) <==> x in keys && Has(s, x)
    ensures x in keys && Has(s, x) ==> Lookup(Restrict(s, keys), x) == Lookup(s, x)
  {
    if s != [] {
      hide Restrict, Has, Lookup;
      var e, rest := s[0], s[1..];
      assert s == [e] + rest;
      RestrictLookup(rest, keys, x);
      RestrictCons(e, rest, keys);
      LookupCons(e, rest, x);
      LookupCons(e, Restrict(rest, keys), x);
    }
  }

  lemma WithoutLength<K, V>(s: Entries<K, V>, k: K)
    requires Unique(s)
    ensures |Without(s, k)| == if Has(s, k) then |s| - 1 else |s|
  {
    if Has(s, k) {
      var i :| 0 <= i < |s| && s[i].0 == k;
      WithoutAt(s, i);
    } else {
      WithoutAbsent(s, k);
    }
  }

  lemma KeySetCons<K(!new), V>(e: (K, V), s: Entries<K, V>, k: K)
    requires e.0 == k
    ensures KeySet([e] + Without(s, k)) == KeySet(s) + {k}
    ensures Unique(s) ==> Unique([e] + Without(s, k))
  {
    WithoutKeys(s, k);
    HasCons(e, Without(s, k));
    hide Without, Has;
    forall x ensures x in KeySet([e] + Without(s, k)) <==> x in KeySet(s) + {k} {
      KeySetHas([e] + Without(s, k), x);
      KeySetHas(s, x);
    }
  }

  // Putting an entry in front of both lists keeps the one a restriction of the other.
  lemma FrontIncluded<K(!new), V>(small: Entries<K, V>, large: Entries<K, V>, e: (K, V))
    requires small == Restrict(large, KeySet(small))
    ensures var s', l' := [e] + Without(small, e.0), [e] + Without(large, e.0);
            s' == Restrict(l', KeySet(s'))
  {
    var keys := KeySet(small);
    KeySetCons(e, small, e.0);
    RestrictCons(e, Without(large, e.0), keys + {e.0});
    RestrictWithout(large, keys + {e.0}, e.0);
    RestrictWithout(large, keys, e.0);
    assert (keys + {e.0}) - {e.0} == keys - {e.0};
  }

  // Without the small cache holding the key, only the large list moves.
  lemma LargeMoves<K(!new), V>(small: Entries<K, V>, large: Entries<K, V>, e: (K, V))
    requires small == Restrict(large, KeySet(small)) && !Has(small, e.0)
    ensures small == Restrict([e] + Without(large, e.0), KeySet(small))
  {
    KeySetHas(small, e.0);
    RestrictCons(e, Without(large, e.0), KeySet(small));
    RestrictWithout(large, KeySet(small), e.0);
    WithoutAbsent(small, e.0);
  }

  lemma DropLastKey<K(!new), V>(s: Entries<K, V>)
    requires Unique(s) && s != []
    ensures Unique(s[..|s| - 1]) && Without(s, s[|s| - 1].0) == s[..|s| - 1]
    ensures KeySet(s[..|s| - 1]) == KeySet(s) - {s[|s| - 1].0}
  {
    hide Without, Has, Lookup, Unique, KeySet;
    var last, rest := s[|s| - 1], s[..|s| - 1];
    WithoutAt(s, |s| - 1);
    assert Cut(s, |s| - 1) == rest;
    WithoutKeys(s, last.0);
    forall x ensures x in KeySet(rest) <==> x in KeySet(s) && x != last.0 {
      KeySetHas(rest, x);
      KeySetHas(s, x);
    }
  }

  lemma TrimIncluded<K(!new), V>(small: Entries<K, V>, large: Entries<K, V>, k: nat, k': nat)
    requires Unique(small) && Unique(large) && small == Restrict(large, KeySet(small))
    requires |large| > k' ==> |small| > k
    ensures Trimmed(small, k) == Restrict(Trimmed(large, k'), KeySet(Trimmed(small, k)))
  {
    var small' := Trimmed(small, k);
    if |small| > k {
      DropLastKey(small);
      RestrictWithout(large, KeySet(small), small[|small| - 1].0);
    }
    assert small' == Restrict(large, KeySet(small'));
    hide Without, KeySet, Unique;
    if |large| > k' {
      RestrictSnoc(large, KeySet(small));
      RestrictSnoc(large, KeySet(small'));
    }
  }

  lemma RestrictSnoc<K, V>(s: Entries<K, V>, keys: set<K>)
    requires s != []
    ensures var rest, e := s[..|s| - 1], s[|s| - 1];
            Restrict(s, keys) == if e.0 in keys then Restrict(rest, keys) + [e] else Restrict(rest, keys)
  {
    var rest, e := s[..|s| - 1], s[|s| - 1];
    assert s == rest + [e];
    RestrictAppend(rest, [e], keys);
    assert Restrict([e], keys) == if e.0 in keys then [e] else [];
  }

  lemma GetIncluded<K(!new), V>(small: Entries<K, V>, large: Entries<K, V>, k: nat, x: K)
    requires Included(small, large, k)
    ensures Included(ToFront(small, x), ToFront(large, x), k)
  {
    hide Restrict, KeySet, Without, Unique, Lookup, Has;
    RestrictLookup(large, KeySet(small), x);
    KeySetHas(small, x);
    WithoutLength(small, x);
    WithoutLength(large, x);
    if Has(small, x) {
      var e := (x, Lookup(large, x));
      FrontIncluded(small, large, e);
      KeySetCons(e, small, x);
      KeySetCons(e, large, x);
    } else if Has(large, x) {
      var e := (x, Lookup(large, x));
      LargeMoves(small, large, e);
      KeySetCons(e, large, x);
    }
  }

  lemma PutIncluded<K(!new), V>(small: Entries<K, V>, large: Entries<K, V>, k: nat, k': nat, x: K, v: V)
    requires Included(small, large, k) && 0 < k <= k' && |large| <= k'
    ensures Included(AfterPut(small, k, x, v), AfterPut(large, k', x, v), k)
    ensures |AfterPut(large, k', x, v)| <= k'
  {
    hide Restrict, KeySet, Without, Unique, Lookup, Has;
    var e := (x, v);
    var small', large' := [e] + Without(small, x), [e] + Without(large, x);
    PutSizes(small, large, k, x);
    FrontIncluded(small, large, e);
    KeySetCons(e, small, x);
    KeySetCons(e, large, x);
    DropLastKey(small');
    DropLastKey(large');
    TrimIncluded(small', large', k, k');
  }

  lemma {:induction false} RestrictLength<K, V>(s: Entries<K, V>, keys: set<K>)
    ensures |Restrict(s, keys)| <= |s|
  {
    if s != [] {
      RestrictLength(s[1..], keys);
    }
  }

  // The small cache grows whenever the large one does, and is full if only it lacks the key.
  lemma PutSizes<K(!new), V>(small: Entries<K, V>, large: Entries<K, V>, k: nat, x: K)
    requires Included(small, large, k)
    ensures var n, m := |Without(small, x)|, |Without(large, x)|;
            && (m == |large| ==> n == |small|)
            && (n == |small| && m < |large| ==> |small| == k)
            && |small| - 1 <= n <= |small| && |large| - 1 <= m <= |large|
  {
    RestrictLookup(large, KeySet(small), x);
    KeySetHas(small, x);
    WithoutLength(small, x);
    WithoutLength(large, x);
    if !Has(small, x) && Has(large, x) {
      WithoutAbsent(small, x);
      RestrictWithout(large, KeySet(small), x);
      RestrictLength(Without(large, x), KeySet(small));
    }
  }

  /**
    LRU inclusion: after any operations on two caches of capacities k <= k', the smaller
    cache's list is the larger one's restricted to the smaller one's keys.  So every key
    resident in the smaller is resident in the larger, with the same value and in the same
    recency order, and the smaller holds as many keys as it can.
   */
  lemma {:induction false} LruInclusion<K(!new), V>(ops: seq<Op<K, V>>, k: nat, k': nat)
    requires 0 < k <= k'
    ensures Included(AfterOps(k, ops), AfterOps(k', ops), k) && |AfterOps(k', ops)| <= k'
  {
    if ops == [] {
    } else {
      var rest := ops[..|ops| - 1];
      LruInclusion(rest, k, k');
      hide Included;
      match ops[|ops| - 1] {
        case Get(x) =>
          ToFrontLength(AfterOps(k, rest), AfterOps(k', rest), k, x);
          GetIncluded(AfterOps(k, rest), AfterOps(k', rest), k, x);
        case Put(x, v) => PutIncluded(AfterOps(k, rest), AfterOps(k', rest), k, k', x, v);
      }
    }
  }

  lemma ToFrontLength<K, V>(small: Entries<K, V>, large: Entries<K, V>, k: nat, x: K)
    requires Included(small, large, k)
    ensures |ToFront(large, x)| == |large|
  {
    WithoutLength(large, x);
  }

  /** What inclusion says of a single key. */
  lemma ResidentInLarger<K(!new), V>(ops: seq<Op<K, V>>, k: nat, k': nat, x: K)
    requires 0 < k <= k' && Has(AfterOps(k, ops), x)
    ensures Has(AfterOps(k', ops), x) && Lookup(AfterOps(k', ops), x) == Lookup(AfterOps(k, ops), x)
  {
    LruInclusion(ops, k, k');
    RestrictLookup(AfterOps(k', ops), KeySet(AfterOps(k, ops)), x);
  }

  // ---------- recency, from the operations alone ----------

  // The position of the last operation that names the key, or -1.
  function LastUse<K(==), V>(ops: seq<Op<K, V>>, k: K): (p: int)
    ensures -1 <= p < |ops| && (0 <= p ==> ops[p].k == k)
    ensures forall i :: p < i < |ops| ==> ops[i].k != k
  {
    if ops == [] then -1
    else if ops[|ops| - 1].k == k then |ops| - 1
    else LastUse(ops[..|ops| - 1], k)
  }

  // The value of the last Put of the key.
  function LastPut<K(==), V>(ops: seq<Op<K, V>>, k: K): Option<V> {
    if ops == [] then None
    else if ops[|ops| - 1].Put? && ops[|ops| - 1].k == k then Some(ops[|ops| - 1].v)
    else LastPut(ops[..|ops| - 1], k)
  }

  // The later the last use of a key, the further in front it stands.
  ghost predicate ByRecency<K, V>(ops: seq<Op<K, V>>, s: Entries<K, V>) {
    forall i, j :: 0 <= i < j < |s| ==> LastUse(ops, s[j].0) < LastUse(ops, s[i].0)
  }

  ghost predicate LastValues<K, V>(ops: seq<Op<K, V>>, s: Entries<K, V>) {
    forall i :: 0 <= i < |s| ==> LastPut(ops, s[i].0) == Some(s[i].1)
  }

  lemma ByRecencyUnique<K, V>(ops: seq<Op<K, V>>, s: Entries<K, V>)
    requires ByRecency(ops, s)
    ensures Unique(s)
  {
  }

  // An operation on another key matters neither to the order nor to the values.
  lemma OtherKeys<K, V>(ops: seq<Op<K, V>>, op: Op<K, V>, s: Entries<K, V>)
    requires ByRecency(ops, s) && LastValues(ops, s) && !Has(s, op.k)
    ensures ByRecency(ops + [op], s) && LastValues(ops + [op], s)
  {
    assert (ops + [op])[..|ops|] == ops;
    forall i | 0 <= i < |s| ensures LastUse(ops + [op], s[i].0) == LastUse(ops, s[i].0) && LastPut(ops + [op], s[i].0) == LastPut(ops, s[i].0) {
      assert s[i].0 != op.k;
    }
  }

  lemma CutByRecency<K, V>(ops: seq<Op<K, V>>, s: Entries<K, V>, i: nat)
    requires ByRecency(ops, s) && LastValues(ops, s) && i < |s|
    ensures ByRecency(ops, Cut(s, i)) && LastValues(ops, Cut(s, i))
  {
    hide LastUse, LastPut;
    var cut := Cut(s, i);
    assert forall j :: 0 <= j < |cut| ==> cut[j] == s[if j < i then j else j + 1];
  }

  lemma WithoutByRecency<K(!new), V>(ops: seq<Op<K, V>>, s: Entries<K, V>, k: K)
    requires ByRecency(ops, s) && LastValues(ops, s)
    ensures ByRecency(ops, Without(s, k)) && LastValues(ops, Without(s, k)) && !Has(Without(s, k), k)
  {
    ByRecencyUnique(ops, s);
    WithoutKeys(s, k);
    if Has(s, k) {
      var i :| 0 <= i < |s| && s[i].0 == k;
      WithoutAt(s, i);
      CutByRecency(ops, s, i);
    } else {
      WithoutAbsent(s, k);
    }
  }

  // The key just used goes in front.
  lemma FrontByRecency<K, V>(ops: seq<Op<K, V>>, op: Op<K, V>, v: V, s: Entries<K, V>)
    requires ByRecency(ops, s) && LastValues(ops, s) && !Has(s, op.k)
    requires LastPut(ops + [op], op.k) == Some(v)
    ensures ByRecency(ops + [op], [(op.k, v)] + s) && LastValues(ops + [op], [(op.k, v)] + s)
  {
    OtherKeys(ops, op, s);
    var all, ops' := [(op.k, v)] + s, ops + [op];
    assert LastUse(ops', op.k) == |ops|;
    forall j | 0 < j < |all| ensures all[j] == s[j - 1] && LastUse(ops', all[j].0) < |ops| {
      assert s[j - 1].0 != op.k;
      assert ops'[|ops|].k != all[j].0;
    }
  }

  lemma LastPutSnoc<K, V>(ops: seq<Op<K, V>>, op: Op<K, V>, k: K)
    ensures LastPut(ops + [op], k) == if op.Put? && op.k == k then Some(op.v) else LastPut(ops, k)
  {
    assert (ops + [op])[..|ops|] == ops;
  }

  lemma OpByRecency<K(!new), V>(ops: seq<Op<K, V>>, op: Op<K, V>, s: Entries<K, V>, capacity: nat)
    requires 0 < capacity && ByRecency(ops, s) && LastValues(ops, s)
    ensures ByRecency(ops + [op], AfterOp(s, capacity, op)) && LastValues(ops + [op], AfterOp(s, capacity, op))
  {
    WithoutByRecency(ops, s, op.k);
    LastPutSnoc(ops, op, op.k);
    match op {
      case Get(k) =>
        if Has(s, k) {
          ByRecencyUnique(ops, s);
          var i :| 0 <= i < |s| && s[i].0 == k;
          WithoutAt(s, i);
          FrontByRecency(ops, op, Lookup(s, k), Without(s, k));
        } else {
          OtherKeys(ops, op, s);
        }
      case Put(k, v) =>
        FrontByRecency(ops, op, v, Without(s, k));
        var all := [(k, v)] + Without(s, k);
        hide LastUse, LastPut, Without;
        assert Trimmed(all, capacity) <= all;
    }
  }

  /**
    After any operations, the keys of the cache stand in falling order of the last operation
    that named them, and each has the value of its last Put.
   */
  lemma {:induction false} RecencyOrder<K(!new), V>(ops: seq<Op<K, V>>, capacity: nat)
    requires 0 < capacity
    ensures ByRecency(ops, AfterOps(capacity, ops)) && LastValues(ops, AfterOps(capacity, ops))
  {
    if ops != [] {
      var rest, last := ops[..|ops| - 1], ops[|ops| - 1];
      assert ops == rest + [last];
      RecencyOrder(rest, capacity);
      hide ByRecency, LastValues, AfterOp;
      OpByRecency(rest, last, AfterOps(capacity, rest), capacity);
    }
  }

  lemma AfterOpsSnoc<K, V>(ops: seq<Op<K, V>>, op: Op<K, V>, capacity: nat)
    ensures AfterOps(capacity, ops + [op]) == AfterOp(AfterOps(capacity, ops), capacity, op)
  {
    assert (ops + [op])[..|ops|] == ops;
  }

  /**
    A Put of a new key into a full cache drops exactly the resident key whose last use is
    longest ago, and no other.
   */
  lemma PutDropsOldest<K(!new), V>(ops: seq<Op<K, V>>, capacity: nat, k: K, v: V) returns (victim: K)
    requires 0 < capacity && |AfterOps(capacity, ops)| == capacity && !Has(AfterOps(capacity, ops), k)
    ensures var s, s' := AfterOps(capacity, ops), AfterOps(capacity, ops + [Put(k, v)]);
            && Has(s, victim)
            && (forall x :: Has(s, x) && x != victim ==> LastUse(ops, victim) < LastUse(ops, x))
            && (forall x :: Has(s', x) <==> x == k || (Has(s, x) && x != victim))
  {
    var s := AfterOps(capacity, ops);
    RecencyOrder(ops, capacity);
    AfterOpsSnoc(ops, Put(k, v), capacity);
    ByRecencyUnique(ops, s);
    victim := s[|s| - 1].0;
    WithoutAbsent(s, k);
    var kept := s[..|s| - 1];
    assert Trimmed([(k, v)] + s, capacity) == [(k, v)] + kept;
    hide AfterOps, AfterOp, LastUse;
    HasCons((k, v), kept);
    forall x ensures Has(kept, x) <==> Has(s, x) && x != victim {
      LastKey(s, x);
    }
  }

  lemma LastKey<K, V>(s: Entries<K, V>, x: K)
    requires Unique(s) && s != []
    ensures Has(s[..|s| - 1], x) <==> Has(s, x) && x != s[|s| - 1].0
  {
    if Has(s, x) && x != s[|s| - 1].0 {
      var i :| 0 <= i < |s| && s[i].0 == x;
      assert s[..|s| - 1][i].0 == x;
    }
  }
}
