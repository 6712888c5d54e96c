/** `pkg/basic/linked_hash_map.go`: a map whose nodes also form a doubly linked chain. */
module LinkedHashMaps {
  import opened Options
  import opened Chains

  function Replaced<K(==), V>(s: Entries<K, V>, k: K, v: V): Entries<K, V> {
    seq(|s|, i requires 0 <= i < |s| => if s[i].0 == k then (k, v) else s[i])
  }

  function AfterPut<K(==), V>(s: Entries<K, V>, k: K, v: V): Entries<K, V> {
    if Has(s, k) then Replaced(s, k, v) else s + [(k, v)]
  }

  function ValuesOf<K, V>(s: Entries<K, V>): seq<V> {
    seq(|s|, i requires 0 <= i < |s| => s[i].1)
  }

  // ---------- map and order laws ----------

  lemma Holder<K, V>(s: Entries<K, V>, x: K) returns (i: nat)
    requires Unique(s) && Has(s, x)
    ensures i < |s| && s[i].0 == x && Lookup(s, x) == s[i].1
  {
    i :| 0 <= i < |s| && s[i].0 == x;
    WithoutAt(s, i);
  }

  /**
    After a Put the key has the value and every other key its own; a new key comes last, and
    otherwise the order of the keys stays.
   */
  lemma PutThenGet<K(!new), V>(s: Entries<K, V>, k: K, v: V, x: K)
    requires Unique(s)
    ensures var s' := AfterPut(s, k, v);
            && Unique(s') && KeysOf(s') == (if Has(s, k) then KeysOf(s) else KeysOf(s) + [k])
            && (Has(s', x) <==> x == k || Has(s, x))
            && (Has(s', x) ==> Lookup(s', x) == if x == k then v else Lookup(s, x))
  {
    var s' := AfterPut(s, k, v);
    assert forall i :: 0 <= i < |s| ==> s'[i].0 == s[i].0;
    assert !Has(s, k) ==> s'[|s|] == (k, v);
    if Has(s, x) {
      var i := Holder(s, x);
      assert s'[i].0 == x;
    }
    if Has(s', x) {
      var i := Holder(s', x);
      if i < |s| {
        WithoutAt(s, i);
      }
    }
  }

  /** After a Remove the key is gone and every other key has its value; the order stays. */
  lemma {:induction false} RemoveThenGet<K(!new), V>(s: Entries<K, V>, k: K, x: K)
    ensures !Has(Without(s, k), k)
    ensures x != k ==> (Has(Without(s, k), x) <==> Has(s, x))
    ensures x != k && Has(s, x) ==> Lookup(Without(s, k), x) == Lookup(s, x)
  {
    WithoutKeys(s, k);
    if s != [] && x != k && Has(s, x) {
      var e, rest := s[0], s[1..];
      assert s == [e] + rest;
      HasCons(e, rest);
      if e.0 != x {
        RemoveThenGet(rest, k, x);
        WithoutKeys(rest, k);
        if e.0 != k {
          HasCons(e, Without(rest, k));
          assert ([e] + Without(rest, k))[1..] == Without(rest, k);
        }
      }
    }
  }

  /** MoveToHead puts the key first; all values and the order of the other keys stay. */
  lemma FrontThenGet<K(!new), V>(s: Entries<K, V>, k: K, x: K)
    requires Unique(s) && Has(s, k)
    ensures var s' := ToFront(s, k);
            && |s'| == |s| && s'[0].0 == k && s'[1..] == Without(s, k)
            && (Has(s', x) <==> Has(s, x)) && (Has(s, x) ==> Lookup(s', x) == Lookup(s, x))
  {
    var i := Holder(s, k);
    WithoutAt(s, i);
    RemoveThenGet(s, k, x);
    HasCons((k, Lookup(s, k)), Without(s, k));
    assert ToFront(s, k)[1..] == Without(s, k);
  }

  class LinkedHashMap<K(==,!new), V> {
    var items: map<K, Node<K, V>>
    var head: Node?<K, V>
    var tail: Node?<K, V>
    ghost var nodes: seq<Node<K, V>>

    ghost predicate Valid()
      reads this, nodes
    {
      Chain(nodes, head, tail) && Indexed(items, nodes)
    }

    // The entries in list order.
    ghost function Contents(): (s: Entries<K, V>)
      reads this, nodes
      ensures |s| == |nodes|
    {
      EntriesOf(nodes)
    }

    constructor ()
      ensures Valid() && Contents() == [] && nodes == []
    {
      items := map[];
      head, tail := null, null;
      nodes := [];
    }

    // Where a key stands in the list, and what removing it leaves.
    lemma Position(k: K) returns (i: nat)
      requires Valid() && k in items
      ensures i < |nodes| && nodes[i] == items[k] && nodes[i].key == k
      ensures Unique(Contents()) && Contents()[i] == (k, items[k].value)
      ensures Has(Contents(), k) && Lookup(Contents(), k) == items[k].value
      ensures Without(Contents(), k) == Cut(Contents(), i)
      ensures Indexed(items - {k}, Cut(nodes, i))
    {
      i :| 0 <= i < |nodes| && nodes[i] == items[k];
      IndexedEntries(items, nodes);
      WithoutAt(Contents(), i);
      IndexedCut(items, nodes, i);
      hide Unique, Has, Without, Lookup;
    }

    lemma AtFront(k: K, i: nat)
      requires Valid() && k in items && i < |nodes| && nodes[i] == items[k] && nodes[i].key == k
      ensures Indexed(items, [nodes[i]] + Cut(nodes, i)) && nodes[i] !in Cut(nodes, i)
      ensures Distinct(nodes) && (nodes[i] == head ==> i == 0)
    {
      assert Distinct(nodes) && (nodes[i] == head ==> i == 0);
      hide Chain, Indexed;
      IndexedCut(items, nodes, i);
      IndexedAdd(items - {k}, Cut(nodes, i), nodes[i], [nodes[i]] + Cut(nodes, i));
      assert (items - {k})[k := nodes[i]] == items;
      CutMembers(nodes, i);
    }

    // The head and the tail are the ends of the list.
    lemma Ends()
      requires Valid()
      ensures head == null <==> Contents() == []
      ensures tail == null <==> Contents() == []
      ensures var s := Contents();
              s != [] ==>
                && head != null && tail != null && head.key == s[0].0 && tail.key == s[|s| - 1].0
                && Without(s, s[0].0) == s[1..] && Without(s, s[|s| - 1].0) == s[..|s| - 1]
    {
      var s := Contents();
      if s != [] {
        IndexedEntries(items, nodes);
        hide Indexed, Has;
        WithoutAt(s, 0);
        WithoutAt(s, |s| - 1);
        CutFirst(s);
        assert Cut(s, |s| - 1) == s[..|s| - 1];
      }
    }

    lemma Absent(k: K)
      requires Valid() && k !in items
      ensures !Has(Contents(), k) && Without(Contents(), k) == Contents()
    {
      IndexedEntries(items, nodes);
      WithoutAbsent(Contents(), k);
    }

    method Put(k: K, v: V)
      requires Valid()
      modifies this, nodes
      ensures Valid() && Contents() == AfterPut(old(Contents()), k, v)
      ensures forall x :: x in nodes ==> x in old(nodes) || fresh(x)
    {
      hide Chain, Indexed, Has, Without, Lookup, Unique, Replaced;
      ghost var before := Contents();
      if k in items {
        ghost var i := Position(k);
        SetValue(items[k], v, i);
        ReplacedAt(before, k, v, i);
        return;
      }
      Absent(k);
      var n := new Node(k, v);
      IndexedAdd(items, nodes, n, nodes + [n]);
      Append(n);
      items := items[k := n];
    }

    method SetValue(n: Node<K, V>, v: V, ghost i: nat)
      requires Valid() && i < |nodes| && nodes[i] == n
      modifies n`value
      ensures Valid() && Contents() == old(Contents())[i := (n.key, v)]
    {
      n.value := v;
    }

    lemma ReplacedAt(s: Entries<K, V>, k: K, v: V, i: nat)
      requires Unique(s) && i < |s| && s[i].0 == k
      ensures Replaced(s, k, v) == s[i := (k, v)]
    {
    }

    // The new node becomes the tail of the chain.
    method Append(n: Node<K, V>)
      requires Chain(nodes, head, tail) && n !in nodes && n.prev == null && n.next == null
      modifies this`head, this`tail, this`nodes, nodes, n
      ensures Chain(nodes, head, tail) && nodes == old(nodes) + [n]
      ensures EntriesOf(nodes) == old(EntriesOf(nodes)) + [(n.key, old(n.value))]
    {
      if tail == null {
        head := n;
        tail := n;
      } else {
        tail.next := n;
        n.prev := tail;
        tail := n;
      }
      nodes := nodes + [n];
    }

    method Get(k: K) returns (v: Option<V>)
      requires Valid()
      ensures v == if Has(Contents(), k) then Some(Lookup(Contents(), k)) else None
    {
      if k in items {
        ghost var i := Position(k);
        return Some(items[k].value);
      }
      Absent(k);
      return None;
    }

    // Node `i` leaves the chain.
    method TakeOut(n: Node<K, V>, ghost i: nat)
      requires Chain(nodes, head, tail) && i < |nodes| && nodes[i] == n
      modifies this`head, this`tail, this`nodes, nodes
      ensures Chain(nodes, head, tail) && nodes == Cut(old(nodes), i)
      ensures forall x :: x in old(nodes) ==> x.value == old(x.value)
      ensures EntriesOf(nodes) == Cut(old(EntriesOf(nodes)), i)
    {
      hide Chain, EntriesOf, Cut;
      head, tail := Unlink(n, head, tail, nodes, i);
      EntriesCut(nodes, old(EntriesOf(nodes)), i);
      nodes := Cut(nodes, i);
    }

    // A node outside the chain becomes its head.
    method PutFirst(n: Node<K, V>)
      requires Chain(nodes, head, tail) && n !in nodes
      modifies this`head, this`tail, this`nodes, nodes, n
      ensures Chain(nodes, head, tail) && nodes == [n] + old(nodes)
      ensures EntriesOf(nodes) == [(n.key, old(n.value))] + old(EntriesOf(nodes))
    {
      hide Chain, EntriesOf;
      tail := PushFront(n, head, tail, nodes);
      head := n;
      nodes := [n] + nodes;
    }

    method Remove(k: K)
      requires Valid()
      modifies this, nodes
      ensures Valid() && Contents() == Without(old(Contents()), k)
      ensures forall x :: x in nodes ==> x in old(nodes)
    {
      hide Chain, Indexed, Unique, Has, Without, Lookup;
      if k !in items {
        Absent(k);
        return;
      }
      ghost var i := Position(k);
      TakeOut(items[k], i);
      items := items - {k};
    }

    method RemoveFirst() returns (k: Option<K>)
      requires Valid()
      modifies this, nodes
      ensures Valid()
      ensures if old(Contents()) == [] then k == None && Contents() == []
              else k == Some(old(Contents())[0].0) && Contents() == old(Contents())[1..]
      ensures forall x :: x in nodes ==> x in old(nodes)
    {
      hide Chain, Indexed, Unique, Has, Without, Lookup;
      Ends();
      if head == null {
        return None;
      }
      var key := head.key;
      Remove(key);
      return Some(key);
    }

    method RemoveLast() returns (k: Option<K>)
      requires Valid()
      modifies this, nodes
      ensures Valid()
      ensures var n := |old(Contents())|;
              if n == 0 then k == None && Contents() == []
              else k == Some(old(Contents())[n - 1].0) && Contents() == old(Contents())[..n - 1]
      ensures forall x :: x in nodes ==> x in old(nodes)
    {
      hide Chain, Indexed, Unique, Has, Without, Lookup;
      Ends();
      if tail == null {
        return None;
      }
      var key := tail.key;
      Remove(key);
      return Some(key);
    }

    method MoveToHead(k: K)
      requires Valid()
      modifies this, nodes
      ensures Valid() && Contents() == ToFront(old(Contents()), k)
      ensures forall x :: x in nodes <==> x in old(nodes)
    {
      hide Chain, Indexed, Unique, Has, Without, Lookup, Cut;
      if k !in items {
        Absent(k);
        return;
      }
      var n := items[k];
      ghost var i := Position(k);
      AtFront(k, i);
      if n == head {
        CutFirst(Contents());
        return;
      }
      Relink(n, i);
      CutMembers(old(nodes), i);
    }

    // moveToHead: unlink the node, then put it in front.
    method Relink(n: Node<K, V>, ghost i: nat)
      requires Chain(nodes, head, tail) && i < |nodes| && nodes[i] == n
      modifies this`head, this`tail, this`nodes, nodes
      ensures Chain(nodes, head, tail) && nodes == [n] + Cut(old(nodes), i)
      ensures EntriesOf(nodes) == [old(EntriesOf(nodes))[i]] + Cut(old(EntriesOf(nodes)), i)
    {
      CutMembers(nodes, i);
      hide Chain, Cut;
      TakeOut(n, i);
      PutFirst(n);
    }

    method Size() returns (n: nat)
      requires Valid()
      ensures n == |Contents()|
    {
      IndexedSize(items, nodes);
      return |items|;
    }

    /** The walk along `next` ends, and yields each key once, in list order. */
    method Keys() returns (keys: seq<K>)
      requires Valid()
      ensures keys == KeysOf(Contents())
    {
      keys := [];
      var p := head;
      ghost var i := 0;
      while p != null
        invariant 0 <= i <= |nodes| && p == (if i < |nodes| then nodes[i] else null)
        invariant keys == KeysOf(Contents())[..i]
        decreases |nodes| - i
      {
        keys := keys + [p.key];
        p := p.next;
        i := i + 1;
      }
    }

    method Values() returns (values: seq<V>)
      requires Valid()
      ensures values == ValuesOf(Contents())
    {
      values := [];
      var p := head;
      ghost var i := 0;
      while p != null
        invariant 0 <= i <= |nodes| && p == (if i < |nodes| then nodes[i] else null)
        invariant values == ValuesOf(Contents())[..i]
        decreases |nodes| - i
      {
        values := values + [p.value];
        p := p.next;
        i := i + 1;
      }
    }
  }
}
