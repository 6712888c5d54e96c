/**
  `pkg/cache/lfu.go`: a least-frequently-used cache that keeps its keys in one recency list
  per use count.  The lists are `LinkedHashMap` objects, kept apart from each other in
  memory; the tables that the proofs are about hold the entry sequences they stand for.
 */
module LfuCaches {
  import opened Options
  import opened Chains
  import opened LinkedHashMaps

  type Bucket<K> = Entries<K, ()>

  datatype Tables<K> = Tables(freq: map<K, nat>, buckets: map<nat, Bucket<K>>, minUsed: nat)

  // ---------- the simple specification ----------

  // How often a key was used, and when last.
  datatype Use = Use(count: nat, last: nat)

  // `k` is used less often than any other key, or as often and less recently.
  ghost predicate IsVictim<K>(uses: map<K, Use>, k: K) {
    k in uses && forall x :: x in uses && x != k ==>
      uses[k].count < uses[x].count || (uses[k].count == uses[x].count && uses[k].last < uses[x].last)
  }

  // The key's use count goes up by one, now.
  function Used<K>(uses: map<K, Use>, k: K, now: nat): map<K, Use> {
    uses[k := Use(if k in uses then uses[k].count + 1 else 1, now)]
  }

  // ---------- the tables ----------

  // `increase`: the key leaves its bucket and heads the next one.
  function FrontOf<K(==)>(b: Bucket<K>, k: K): Bucket<K> {
    ToFront(AfterPut(b, k, ()), k)
  }

  function Left<K(==)>(t: Tables<K>, k: K): Tables<K> {
    if k !in t.freq || t.freq[k] !in t.buckets then t
    else
      var c := t.freq[k];
      var b := Without(t.buckets[c], k);
      if c == t.minUsed && b == [] then t.(buckets := t.buckets - {c}, minUsed := c + 1)
      else t.(buckets := t.buckets[c := b])
  }

  function Increased<K(==)>(t: Tables<K>, k: K): Tables<K> {
    var c := if k in t.freq then t.freq[k] else 0;
    var t' := Left(t, k);
    var next := if c + 1 in t'.buckets then t'.buckets[c + 1] else [];
    Tables(t'.freq[k := c + 1], t'.buckets[c + 1 := FrontOf(next, k)], t'.minUsed)
  }

  // ---------- the tables agree with the specification ----------

  // The keys of a bucket have its count, most recently used first.
  ghost predicate BucketOk<K>(uses: map<K, Use>, c: nat, b: Bucket<K>) {
    && (forall i :: 0 <= i < |b| ==> b[i].0 in uses && uses[b[i].0].count == c)
    && (forall i, j :: 0 <= i < j < |b| ==> uses[b[j].0].last < uses[b[i].0].last)
  }

  ghost predicate Filed<K>(t: Tables<K>, uses: map<K, Use>, k: K)
    requires k in uses
  {
    uses[k].count in t.buckets && Has(t.buckets[uses[k].count], k)
  }

  // The buckets partition the keys by use count; stale empty buckets are allowed.
  ghost predicate Partitioned<K(!new)>(t: Tables<K>, uses: map<K, Use>, now: nat) {
    && t.freq.Keys == uses.Keys
    && (forall k :: k in uses ==> t.freq[k] == uses[k].count && 1 <= uses[k].count && uses[k].last < now)
    && (forall c :: c in t.buckets ==> BucketOk(uses, c, t.buckets[c]))
    && (forall k :: k in uses ==> Filed(t, uses, k))
  }

  // minUsed is the least use count, and its bucket is not empty.
  ghost predicate MinOk<K(!new)>(t: Tables<K>, uses: map<K, Use>) {
    uses != map[] ==>
      && t.minUsed in t.buckets && t.buckets[t.minUsed] != []
      && forall k :: k in uses ==> t.minUsed <= uses[k].count
  }

  lemma FrontOfNew<K>(b: Bucket<K>, k: K)
    requires !Has(b, k)
    ensures FrontOf(b, k) == [(k, ())] + b
  {
    var b' := b + [(k, ())];
    assert AfterPut(b, k, ()) == b';
    assert b'[|b|].0 == k && Has(b', k);
    WithoutSnoc(b, k);
    var unit := Lookup(b', k);
    assert unit == ();
  }

  lemma {:induction false} WithoutSnoc<K>(b: Bucket<K>, k: K)
    requires !Has(b, k)
    ensures Without(b + [(k, ())], k) == b
  {
    if b == [] {
      assert b + [(k, ())] == [(k, ())];
    } else {
      assert (b + [(k, ())])[1..] == b[1..] + [(k, ())] && (b + [(k, ())])[0] == b[0];
      assert !Has(b[1..], k) by {
        assert forall i :: 0 <= i < |b| - 1 ==> b[1..][i] == b[i + 1];
      }
      WithoutSnoc(b[1..], k);
    }
  }

  // Removing a key from a bucket keeps the order and the other keys.
  lemma WithoutBucket<K(!new)>(uses: map<K, Use>, c: nat, b: Bucket<K>, k: K)
    requires BucketOk(uses, c, b)
    ensures BucketOk(uses, c, Without(b, k)) && !Has(Without(b, k), k)
    ensures forall x :: x != k ==> (Has(Without(b, k), x) <==> Has(b, x))
  {
    WithoutKeys(b, k);
    if Has(b, k) {
      var i :| 0 <= i < |b| && b[i].0 == k;
      CutBucket(uses, c, b, i);
    } else {
      WithoutAbsent(b, k);
    }
  }

  lemma CutBucket<K>(uses: map<K, Use>, c: nat, b: Bucket<K>, i: nat)
    requires BucketOk(uses, c, b) && i < |b|
    ensures Without(b, b[i].0) == Cut(b, i) && BucketOk(uses, c, Cut(b, i))
  {
    hide Without, Has, Lookup;
    WithoutAt(b, i);
    var cut := Cut(b, i);
    assert forall j :: 0 <= j < |cut| ==> cut[j] == b[if j < i then j else j + 1];
  }

  // Other keys' uses do not matter to a bucket.
  lemma BucketFrame<K>(uses: map<K, Use>, c: nat, b: Bucket<K>, k: K, use: Use)
    requires BucketOk(uses, c, b) && !Has(b, k)
    ensures BucketOk(uses[k := use], c, b)
  {
    assert forall i :: 0 <= i < |b| ==> b[i].0 != k;
  }

  // The key that has just been used goes to the front of its new bucket.
  lemma FrontBucket<K>(uses: map<K, Use>, c: nat, b: Bucket<K>, k: K, now: nat)
    requires BucketOk(uses, c, b) && !Has(b, k) && forall x :: x in uses ==> uses[x].last < now
    ensures BucketOk(uses[k := Use(c, now)], c, [(k, ())] + b)
  {
    BucketFrame(uses, c, b, k, Use(c, now));
    var all := [(k, ())] + b;
    assert forall i :: 0 < i < |all| ==> all[i] == b[i - 1];
  }

  // Before a key is filed again it is in no bucket; all other keys stay filed.
  ghost predicate PartlyFiled<K(!new)>(t: Tables<K>, uses: map<K, Use>, k: K, now: nat) {
    && (forall x :: x in uses && x != k ==> x in t.freq && t.freq[x] == uses[x].count && 1 <= uses[x].count && Filed(t, uses, x))
    && (forall x :: x in t.freq && x != k ==> x in uses)
    && (forall x :: x in uses ==> uses[x].last < now)
    && (forall c :: c in t.buckets ==> BucketOk(uses, c, t.buckets[c]) && !Has(t.buckets[c], k))
  }

  lemma LeftPartlyFiled<K(!new)>(t: Tables<K>, uses: map<K, Use>, k: K, now: nat)
    requires Partitioned(t, uses, now)
    ensures PartlyFiled(Left(t, k), uses, k, now)
  {
    var t' := Left(t, k);
    if k in uses {
      var c := uses[k].count;
      assert Filed(t, uses, k) && BucketOk(uses, c, t.buckets[c]);
      WithoutBucket(uses, c, t.buckets[c], k);
      forall d | d in t'.buckets ensures BucketOk(uses, d, t'.buckets[d]) && !Has(t'.buckets[d], k) {
        assert BucketOk(uses, d, t.buckets[d]);
      }
      forall x | x in uses && x != k ensures Filed(t', uses, x) {
        assert Filed(t, uses, x);
      }
    } else {
      forall d | d in t'.buckets ensures BucketOk(uses, d, t'.buckets[d]) && !Has(t'.buckets[d], k) {
        assert BucketOk(uses, d, t.buckets[d]);
      }
    }
  }

  function NextBucket<K>(t: Tables<K>, c: nat): Bucket<K> {
    if c in t.buckets then t.buckets[c] else []
  }

  lemma RefiledBuckets<K(!new)>(t: Tables<K>, uses: map<K, Use>, k: K, c: nat, now: nat, d: nat)
    requires PartlyFiled(t, uses, k, now) && (d == c || d in t.buckets)
    ensures BucketOk(uses[k := Use(c, now)], d, t.buckets[c := [(k, ())] + NextBucket(t, c)][d])
  {
    if d == c {
      var next := NextBucket(t, c);
      assert !Has(next, k) && BucketOk(uses, c, next);
      FrontBucket(uses, c, next, k, now);
    } else {
      BucketFrame(uses, d, t.buckets[d], k, Use(c, now));
    }
  }

  lemma RefiledKey<K(!new)>(t: Tables<K>, t': Tables<K>, uses: map<K, Use>, k: K, c: nat, now: nat, x: K)
    requires PartlyFiled(t, uses, k, now) && (x in uses || x == k)
    requires t'.buckets == t.buckets[c := [(k, ())] + NextBucket(t, c)]
    ensures Filed(t', uses[k := Use(c, now)], x)
  {
    HasCons((k, ()), NextBucket(t, c));
    if x != k {
      assert Filed(t, uses, x);
    }
  }

  lemma Refiled<K(!new)>(t: Tables<K>, t': Tables<K>, uses: map<K, Use>, k: K, c: nat, now: nat)
    requires PartlyFiled(t, uses, k, now) && 1 <= c
    requires t'.freq == t.freq[k := c] && t'.buckets == t.buckets[c := [(k, ())] + NextBucket(t, c)]
    ensures Partitioned(t', uses[k := Use(c, now)], now + 1)
  {
    hide BucketOk, Filed, Has;
    var uses' := uses[k := Use(c, now)];
    assert t'.freq.Keys == uses'.Keys;
    assert forall x :: x in uses' ==> t'.freq[x] == uses'[x].count && 1 <= uses'[x].count && uses'[x].last < now + 1;
    hide NextBucket;
    forall d | d in t'.buckets ensures BucketOk(uses', d, t'.buckets[d]) {
      RefiledBuckets(t, uses, k, c, now, d);
    }
    forall x | x in uses' ensures Filed(t', uses', x) {
      RefiledKey(t, t', uses, k, c, now, x);
    }
  }

  lemma UsedOnce<K(!new)>(t: Tables<K>, uses: map<K, Use>, k: K, now: nat)
    requires Partitioned(t, uses, now)
    ensures Used(uses, k, now) == uses[k := Use((if k in t.freq then t.freq[k] else 0) + 1, now)]
  {
    hide BucketOk, Filed;
  }

  /** `increase` keeps the partition, and records one more use of the key. */
  lemma IncreasedPartitioned<K(!new)>(t: Tables<K>, uses: map<K, Use>, k: K, now: nat)
    requires Partitioned(t, uses, now)
    ensures Partitioned(Increased(t, k), Used(uses, k, now), now + 1)
  {
    hide PartlyFiled, Left, FrontOf, Has, BucketOk, Filed, Partitioned, Used;
    var c := if k in t.freq then t.freq[k] else 0;
    UsedOnce(t, uses, k, now);
    LeftPartlyFiled(t, uses, k, now);
    NextFront(t, uses, k, now, c + 1);
    Refiled(Left(t, k), Increased(t, k), uses, k, c + 1, now);
  }

  // Once the key has left its bucket, minUsed is the key's next count or a count still in use.
  lemma LeftMin<K(!new)>(t: Tables<K>, uses: map<K, Use>, k: K, now: nat)
    requires Partitioned(t, uses, now) && MinOk(t, uses) && k in uses
    ensures var t', c := Left(t, k), uses[k].count;
            && t'.minUsed <= c + 1
            && (t'.minUsed == c + 1 || (t'.minUsed in t'.buckets && t'.buckets[t'.minUsed] != []))
            && forall x :: x in uses && x != k ==> t'.minUsed <= uses[x].count
  {
    var c := uses[k].count;
    assert Filed(t, uses, k) && BucketOk(uses, c, t.buckets[c]);
    WithoutBucket(uses, c, t.buckets[c], k);
    hide BucketOk, Without;
    if c == t.minUsed && Without(t.buckets[c], k) == [] {
      forall x | x in uses && x != k ensures c + 1 <= uses[x].count {
        assert Filed(t, uses, x);
      }
    }
  }

  lemma NextFront<K(!new)>(t: Tables<K>, uses: map<K, Use>, k: K, now: nat, c: nat)
    requires Partitioned(t, uses, now)
    ensures FrontOf(NextBucket(Left(t, k), c), k) == [(k, ())] + NextBucket(Left(t, k), c)
  {
    LeftPartlyFiled(t, uses, k, now);
    var next := NextBucket(Left(t, k), c);
    assert !Has(next, k) by {
      assert c in Left(t, k).buckets ==> !Has(Left(t, k).buckets[c], k);
    }
    FrontOfNew(next, k);
  }

  /** `increase` keeps minUsed the least count; a new key needs it set to 1 first. */
  lemma IncreasedMin<K(!new)>(t: Tables<K>, uses: map<K, Use>, k: K, now: nat)
    requires Partitioned(t, uses, now)
    requires if k in uses then MinOk(t, uses) else t.minUsed == 1
    ensures MinOk(Increased(t, k), Used(uses, k, now))
  {
    hide FrontOf, Has, BucketOk, Filed, PartlyFiled;
    if k in uses {
      var c := uses[k].count;
      assert t.freq[k] == c;
      hide Left, Partitioned;
      NextFront(t, uses, k, now, c + 1);
      LeftMin(t, uses, k, now);
    } else {
      NextFront(t, uses, k, now, 1);
      assert Left(t, k) == t;
    }
  }

  /** The last key of the minUsed bucket is the one to evict. */
  lemma LastIsVictim<K(!new)>(t: Tables<K>, uses: map<K, Use>, now: nat)
    requires Partitioned(t, uses, now) && MinOk(t, uses) && uses != map[]
    ensures var b := t.buckets[t.minUsed];
            IsVictim(uses, b[|b| - 1].0)
  {
    var c := t.minUsed;
    var b := t.buckets[c];
    var v := b[|b| - 1].0;
    assert BucketOk(uses, c, b);
    forall x | x in uses && x != v
      ensures uses[v].count < uses[x].count || (uses[v].count == uses[x].count && uses[v].last < uses[x].last)
    {
      assert Filed(t, uses, x);
      if uses[x].count == c {
        var i :| 0 <= i < |b| && b[i].0 == x;
      }
    }
  }

  // Taking the victim out of its bucket, perhaps leaving a stale empty one.
  function Evicted<K>(t: Tables<K>): Tables<K>
    requires t.minUsed in t.buckets && t.buckets[t.minUsed] != []
  {
    var b := t.buckets[t.minUsed];
    t.(freq := t.freq - {b[|b| - 1].0}, buckets := t.buckets[t.minUsed := b[..|b| - 1]])
  }

  lemma EvictedBucket<K(!new)>(t: Tables<K>, uses: map<K, Use>, v: K, d: nat)
    requires d in t.buckets && BucketOk(uses, d, t.buckets[d])
    requires t.minUsed in t.buckets && t.buckets[t.minUsed] != [] && BucketOk(uses, t.minUsed, t.buckets[t.minUsed])
    requires v == t.buckets[t.minUsed][|t.buckets[t.minUsed]| - 1].0
    ensures BucketOk(uses - {v}, d, Evicted(t).buckets[d])
  {
    var b := t.buckets[d];
    if d == t.minUsed {
      assert b[|b| - 1].0 == v;
      assert forall i :: 0 <= i < |b| - 1 ==> b[i].0 != v;
    } else {
      assert uses[v].count == t.minUsed;
      assert forall i :: 0 <= i < |b| ==> b[i].0 != v;
    }
  }

  lemma EvictedKey<K(!new)>(t: Tables<K>, uses: map<K, Use>, v: K, x: K)
    requires x in uses && x != v && Filed(t, uses, x)
    requires t.minUsed in t.buckets && t.buckets[t.minUsed] != [] && v == t.buckets[t.minUsed][|t.buckets[t.minUsed]| - 1].0
    ensures Filed(Evicted(t), uses - {v}, x)
  {
    var b := t.buckets[t.minUsed];
    if uses[x].count == t.minUsed {
      var i :| 0 <= i < |b| && b[i].0 == x;
      assert b[..|b| - 1][i].0 == x;
    }
  }

  lemma EvictedPartitioned<K(!new)>(t: Tables<K>, uses: map<K, Use>, now: nat)
    requires Partitioned(t, uses, now) && MinOk(t, uses) && uses != map[]
    ensures var b := t.buckets[t.minUsed];
            Partitioned(Evicted(t), uses - {b[|b| - 1].0}, now)
  {
    hide BucketOk, Filed, Has;
    var b := t.buckets[t.minUsed];
    var v := b[|b| - 1].0;
    var t', uses' := Evicted(t), uses - {v};
    assert t'.freq.Keys == uses'.Keys;
    forall d | d in t'.buckets ensures BucketOk(uses', d, t'.buckets[d]) {
      EvictedBucket(t, uses, v, d);
    }
    forall x | x in uses' ensures Filed(t', uses', x) {
      EvictedKey(t, uses, v, x);
    }
  }

  // ---------- the bucket lists ----------

  ghost predicate Apart<T>(a: seq<T>, b: seq<T>) {
    forall i, j :: 0 <= i < |a| && 0 <= j < |b| ==> a[i] != b[j]
  }

  lemma ApartStill<T>(a': seq<T>, a: seq<T>, b: seq<T>)
    requires Apart(a, b) && forall x :: x in a' ==> x in a || x !in b
    ensures Apart(a', b) && Apart(b, a')
  {
    forall i, j | 0 <= i < |a'| && 0 <= j < |b| ensures a'[i] != b[j] {
      assert a'[i] in a' && b[j] in b;
      if a'[i] in a {
        var k :| 0 <= k < |a| && a[k] == a'[i];
      }
    }
  }

  // The `freqMap` of the cache: one linked list per use count.  No two lists share a node.
  class BucketLists<K(==,!new)> {
    var lists: map<nat, LinkedHashMap<K, ()>>
    ghost var repr: set<object>  // the lists and their nodes

    ghost predicate Owned(c: nat)
      reads this, repr
      requires c in lists
    {
      lists[c] in repr && (forall x :: x in lists[c].nodes ==> x in repr) && lists[c].Valid()
    }

    ghost predicate Separate(c: nat, d: nat)
      reads this, repr
    {
      c in lists && d in lists && c != d && lists[c] in repr && lists[d] in repr ==>
        lists[c] != lists[d] && Apart(lists[c].nodes, lists[d].nodes)
    }

    ghost predicate Valid()
      reads this, repr
    {
      && this !in repr
      && (forall c :: c in lists ==> Owned(c))
      && (forall c, d :: Separate(c, d))
    }

    ghost function View(): (v: map<nat, Bucket<K>>)
      reads this, repr
      requires Valid()
      ensures v.Keys == lists.Keys
    {
      map c | c in lists :: (assert Owned(c); lists[c].Contents())
    }

    // The nodes of every list.
    ghost function Nodes(): map<nat, seq<Node<K, ()>>>
      reads this, repr
      requires Valid()
    {
      map c | c in lists :: (assert Owned(c); lists[c].nodes)
    }

    constructor ()
      ensures Valid() && View() == map[] && repr == {}
    {
      lists, repr := map[], {};
    }

    // Every list but `c` is as recorded.
    ghost predicate OthersAs(c: nat, was: map<nat, seq<Node<K, ()>>>, view: map<nat, Bucket<K>>)
      reads this, repr
    {
      && this !in repr && was.Keys == view.Keys == lists.Keys
      && forall d :: d in lists && d != c ==> Owned(d) && lists[d].nodes == was[d] && lists[d].Contents() == view[d]
    }

    ghost predicate WereApart(was: map<nat, seq<Node<K, ()>>>)
      reads this
    {
      forall d, e :: d in was && e in was && d in lists && e in lists && d != e ==> lists[d] != lists[e] && Apart(was[d], was[e])
    }

    // List `c` keeps nodes that it had or gets new ones.
    ghost predicate OwnNodes(c: nat, was: map<nat, seq<Node<K, ()>>>, nodes: seq<Node<K, ()>>) {
      forall x :: x in nodes ==> (c in was && x in was[c]) || forall d :: d in was ==> x !in was[d]
    }

    // A change of list `c` alone.
    lemma Reassemble(c: nat, was: map<nat, seq<Node<K, ()>>>, view: map<nat, Bucket<K>>)
      requires OthersAs(c, was, view) && WereApart(was) && c in lists && Owned(c) && OwnNodes(c, was, lists[c].nodes)
      ensures Valid() && View() == view[c := lists[c].Contents()]
    {
      hide LinkedHashMap.Valid, LinkedHashMap.Contents, Apart;
      forall d, e | d in lists && e in lists && d != e ensures Apart(lists[d].nodes, lists[e].nodes) {
        assert Apart(was[d], was[e]) && Apart(was[e], was[d]);
        if d == c {
          ApartStill(lists[c].nodes, was[c], was[e]);
        } else if e == c {
          ApartStill(lists[c].nodes, was[c], was[d]);
        }
      }
      forall d, e ensures Separate(d, e) {
      }
    }

    lemma Recorded()
      requires Valid()
      ensures forall c :: OthersAs(c, Nodes(), View())
      ensures WereApart(Nodes())
      ensures forall c :: c in lists ==> Owned(c) && Nodes()[c] == lists[c].nodes && View()[c] == lists[c].Contents()
    {
      hide LinkedHashMap.Valid, LinkedHashMap.Contents, Apart;
      forall d, e | d in lists && e in lists && d != e ensures lists[d] != lists[e] && Apart(lists[d].nodes, lists[e].nodes) {
        assert Separate(d, e) && Owned(d) && Owned(e);
      }
    }

    method RemoveKey(c: nat, key: K, ghost was: map<nat, seq<Node<K, ()>>>, ghost view: map<nat, Bucket<K>>)
      requires OthersAs(c, was, view) && WereApart(was) && c in lists && Owned(c)
      requires was[c] == lists[c].nodes && view[c] == lists[c].Contents()
      modifies lists[c], lists[c].nodes
      ensures OthersAs(c, was, view) && Owned(c) && OwnNodes(c, was, lists[c].nodes)
      ensures lists[c].Contents() == Without(view[c], key)
    {
      hide Without, LinkedHashMap.Valid, LinkedHashMap.Contents;
      lists[c].Remove(key);
      forall d | d in lists && d != c
        ensures Owned(d) && lists[d].nodes == was[d] && lists[d].Contents() == view[d]
      {
        assert Apart(was[c], was[d]);
      }
    }

    method Remove(c: nat, key: K) returns (size: nat)
      requires Valid() && c in lists
      modifies repr
      ensures Valid() && lists == old(lists) && repr == old(repr)
      ensures View() == old(View())[c := Without(old(View())[c], key)] && size == |View()[c]|
    {
      hide Without, LinkedHashMap.Valid, LinkedHashMap.Contents, View, Nodes, Separate, OthersAs, WereApart, OwnNodes;
      ghost var was, view := Nodes(), View();
      Recorded();
      assert this !in repr;
      RemoveKey(c, key, was, view);
      Reassemble(c, was, view);
      size := lists[c].Size();
    }

    method TakeLast(c: nat, ghost was: map<nat, seq<Node<K, ()>>>, ghost view: map<nat, Bucket<K>>) returns (key: K)
      requires OthersAs(c, was, view) && WereApart(was) && c in lists && Owned(c) && view[c] != []
      requires was[c] == lists[c].nodes && view[c] == lists[c].Contents()
      modifies lists[c], lists[c].nodes
      ensures OthersAs(c, was, view) && Owned(c) && OwnNodes(c, was, lists[c].nodes)
      ensures key == view[c][|view[c]| - 1].0 && lists[c].Contents() == view[c][..|view[c]| - 1]
    {
      hide LinkedHashMap.Valid, LinkedHashMap.Contents;
      var last := lists[c].RemoveLast();
      key := last.value;
      forall d | d in lists && d != c
        ensures Owned(d) && lists[d].nodes == was[d] && lists[d].Contents() == view[d]
      {
        assert Apart(was[c], was[d]);
      }
    }

    method RemoveLast(c: nat) returns (key: K)
      requires Valid() && c in lists && View()[c] != []
      modifies repr
      ensures Valid() && lists == old(lists) && repr == old(repr)
      ensures var b := old(View())[c]; key == b[|b| - 1].0 && View() == old(View())[c := b[..|b| - 1]]
    {
      hide LinkedHashMap.Valid, LinkedHashMap.Contents, View, Nodes, Separate, OthersAs, WereApart, OwnNodes;
      ghost var was, view := Nodes(), View();
      Recorded();
      assert this !in repr;
      key := TakeLast(c, was, view);
      Reassemble(c, was, view);
    }

    method PutKey(c: nat, key: K, ghost was: map<nat, seq<Node<K, ()>>>, ghost view: map<nat, Bucket<K>>)
      requires OthersAs(c, was, view) && WereApart(was) && c in lists && Owned(c)
      requires was[c] == lists[c].nodes && view[c] == lists[c].Contents()
      modifies lists[c], lists[c].nodes
      ensures OthersAs(c, was, view) && lists[c].Valid() && OwnNodes(c, was, lists[c].nodes)
      ensures lists[c].Contents() == AfterPut(view[c], key, ())
      ensures forall x :: x in lists[c].nodes ==> x in repr || fresh(x)
    {
      hide LinkedHashMap.Valid, LinkedHashMap.Contents, AfterPut;
      lists[c].Put(key, ());
      forall d | d in lists && d != c
        ensures Owned(d) && lists[d].nodes == was[d] && lists[d].Contents() == view[d]
      {
        assert Apart(was[c], was[d]);
      }
    }

    // The new nodes of list `c` are accounted for.
    method Account(c: nat, ghost was: map<nat, seq<Node<K, ()>>>, ghost view: map<nat, Bucket<K>>)
      requires OthersAs(c, was, view) && WereApart(was) && c in lists && lists[c] in repr && lists[c].Valid()
      modifies this`repr
      ensures repr == old(repr) + (set x | x in lists[c].nodes)
      ensures OthersAs(c, was, view) && WereApart(was) && Owned(c)
    {
      hide LinkedHashMap.Valid, LinkedHashMap.Contents, Apart;
      repr := repr + (set x | x in lists[c].nodes);
    }

    method Put(c: nat, key: K)
      requires Valid() && c in lists
      modifies this`repr, repr
      ensures Valid() && lists == old(lists) && fresh(repr - old(repr))
      ensures View() == old(View())[c := AfterPut(old(View())[c], key, ())]
    {
      hide AfterPut, LinkedHashMap.Valid, LinkedHashMap.Contents, View, Nodes, Separate, OthersAs, WereApart, OwnNodes;
      ghost var was, view := Nodes(), View();
      Recorded();
      assert this !in repr;
      PutKey(c, key, was, view);
      Account(c, was, view);
      Reassemble(c, was, view);
    }

    method MoveKey(c: nat, key: K, ghost was: map<nat, seq<Node<K, ()>>>, ghost view: map<nat, Bucket<K>>)
      requires OthersAs(c, was, view) && WereApart(was) && c in lists && Owned(c)
      requires was[c] == lists[c].nodes && view[c] == lists[c].Contents()
      modifies lists[c], lists[c].nodes
      ensures OthersAs(c, was, view) && Owned(c) && OwnNodes(c, was, lists[c].nodes)
      ensures lists[c].Contents() == ToFront(view[c], key)
    {
      hide LinkedHashMap.Valid, LinkedHashMap.Contents, ToFront;
      lists[c].MoveToHead(key);
      forall d | d in lists && d != c
        ensures Owned(d) && lists[d].nodes == was[d] && lists[d].Contents() == view[d]
      {
        assert Apart(was[c], was[d]);
      }
    }

    method MoveToHead(c: nat, key: K)
      requires Valid() && c in lists
      modifies repr
      ensures Valid() && lists == old(lists) && repr == old(repr)
      ensures View() == old(View())[c := ToFront(old(View())[c], key)]
    {
      hide ToFront, LinkedHashMap.Valid, LinkedHashMap.Contents, View, Nodes, Separate, OthersAs, WereApart, OwnNodes;
      ghost var was, view := Nodes(), View();
      Recorded();
      assert this !in repr;
      MoveKey(c, key, was, view);
      Reassemble(c, was, view);
    }

    method AddEmpty(c: nat)
      requires Valid() && c !in lists
      modifies this
      ensures Valid() && View() == old(View())[c := []] && fresh(repr - old(repr))
    {
      hide Valid, View;
      var list := new LinkedHashMap<K, ()>();
      Insert(c, list);
    }

    method Insert(c: nat, list: LinkedHashMap<K, ()>)
      requires Valid() && c !in lists && list !in repr && list.Valid() && list.nodes == [] && list.Contents() == []
      modifies this
      ensures Valid() && View() == old(View())[c := []] && repr == old(repr) + {list}
    {
      hide LinkedHashMap.Valid, LinkedHashMap.Contents, Apart, View, Nodes, Separate;
      ghost var was, view := Nodes(), View();
      Recorded();
      assert OthersAs(c, was, view) && WereApart(was);
      hide Valid;
      lists := lists[c := list];
      repr := repr + {list};
      forall d | d in was ensures Owned(d) && lists[d].nodes == was[d] && lists[d].Contents() == view[d] && lists[d] != list {
        assert old(Owned(d));
      }
      AddedEmpty(c, was, view);
    }

    lemma AddedEmpty(c: nat, was: map<nat, seq<Node<K, ()>>>, view: map<nat, Bucket<K>>)
      requires this !in repr && was.Keys == view.Keys && lists.Keys == was.Keys + {c} && c !in was && WereApart(was)
      requires forall d :: d in was ==> Owned(d) && lists[d].nodes == was[d] && lists[d].Contents() == view[d] && lists[d] != lists[c]
      requires lists[c] in repr && lists[c].nodes == [] && lists[c].Valid() && lists[c].Contents() == []
      ensures Valid() && View() == view[c := []]
    {
      hide LinkedHashMap.Valid, LinkedHashMap.Contents;
      forall d, e ensures Separate(d, e) {
      }
    }

    /** The key heads the list of count `c`, which is made if there is none. */
    method Front(c: nat, key: K)
      requires Valid()
      modifies this, repr
      ensures Valid() && fresh(repr - old(repr))
      ensures View() == old(View())[c := FrontOf(if c in old(View()) then old(View())[c] else [], key)]
    {
      hide AfterPut, ToFront, Valid, View;
      if c !in lists {
        AddEmpty(c);
      }
      Put(c, key);
      MoveToHead(c, key);
    }

    method Drop(c: nat)
      requires Valid() && c in lists
      modifies this`lists
      ensures Valid() && View() == old(View()) - {c} && repr == old(repr)
    {
      hide LinkedHashMap.Valid, LinkedHashMap.Contents, Apart;
      assert forall d, e :: Separate(d, e);
      ghost var view := View();
      lists := lists - {c};
      forall d | d in lists ensures Owned(d) {
        assert old(Owned(d));
      }
      forall d, e ensures Separate(d, e) {
        assert old(Separate(d, e));
      }
    }
  }

  // ---------- the cache ----------

  class LFUCache<K(==,!new), V> {
    const capacity: int
    const freqMap: BucketLists<K>
    var itemMap: map<K, V>
    var freq: map<K, nat>
    var minUsed: nat
    ghost var uses: map<K, Use>  // the simple specification of the cache's keys
    ghost var now: nat

    ghost predicate Held()
      reads this, freqMap, freqMap.repr
    {
      freqMap.Valid() && this !in freqMap.repr
    }

    ghost function State(): Tables<K>
      reads this, freqMap, freqMap.repr
      requires Held()
    {
      Tables(freq, freqMap.View(), minUsed)
    }

    ghost predicate Valid()
      reads this, freqMap, freqMap.repr
    {
      && Held() && Partitioned(State(), uses, now) && MinOk(State(), uses)
      && itemMap.Keys == uses.Keys && (0 <= capacity ==> |itemMap| <= capacity)
      && (capacity == 0 ==> State().buckets == map[])
    }

    constructor (capacity: int)
      ensures Valid() && itemMap == map[] && uses == map[] && this.capacity == capacity
      ensures fresh(freqMap) && fresh(freqMap.repr)
    {
      this.capacity := capacity;
      freqMap := new BucketLists();
      itemMap, freq, minUsed := map[], map[], 0;
      uses, now := map[], 0;
    }

    method Increase(key: K)
      requires Held() && (key in freq ==> 0 < freq[key] && freq[key] in freqMap.View())
      modifies this`freq, this`minUsed, freqMap, freqMap.repr
      ensures Held() && State() == Increased(old(State()), key) && fresh(freqMap.repr - old(freqMap.repr))
    {
      hide FrontOf, Left, BucketLists.Valid, BucketLists.View;
      var useCnt := if key in freq then freq[key] else 0;
      Leave(key, useCnt);
      freq := freq[key := useCnt + 1];
      freqMap.Front(useCnt + 1, key);
    }

    // The first half of `increase`: the key leaves its bucket, if it has one.
    method Leave(key: K, useCnt: nat)
      requires Held() && useCnt == if key in freq then freq[key] else 0
      requires key in freq ==> 0 < freq[key] && freq[key] in freqMap.View()
      modifies this`minUsed, freqMap, freqMap.repr
      ensures Held() && State() == Left(old(State()), key) && freqMap.repr == old(freqMap.repr)
    {
      hide Without, BucketLists.Valid, BucketLists.View;
      if useCnt != 0 {
        var size := freqMap.Remove(useCnt, key);
        if useCnt == minUsed && size == 0 {
          freqMap.Drop(useCnt);
          minUsed := useCnt + 1;
        }
      }
    }

    // A use of a key: the tables change as the specification says.
    method Touch(key: K)
      requires Held() && Partitioned(State(), uses, now) && (if key in uses then MinOk(State(), uses) else minUsed == 1)
      modifies this`freq, this`minUsed, this`uses, this`now, freqMap, freqMap.repr
      ensures Held() && Partitioned(State(), uses, now) && MinOk(State(), uses) && uses == Used(old(uses), key, old(now))
      ensures fresh(freqMap.repr - old(freqMap.repr))
    {
      hide Partitioned, MinOk, Increased, Used, BucketLists.Valid, BucketLists.View;
      HasBucket(key);
      IncreasedPartitioned(State(), uses, key, now);
      IncreasedMin(State(), uses, key, now);
      Increase(key);
      uses, now := Used(uses, key, now), now + 1;
    }

    lemma HasBucket(key: K)
      requires Held() && Partitioned(State(), uses, now)
      ensures key in freq ==> 0 < freq[key] && freq[key] in freqMap.View()
    {
      assert key in uses ==> Filed(State(), uses, key);
    }

    method Get(key: K) returns (v: Option<V>)
      requires Valid()
      modifies this, freqMap, freqMap.repr
      ensures Valid() && itemMap == old(itemMap) && fresh(freqMap.repr - old(freqMap.repr))
      ensures v == if key in old(itemMap) then Some(old(itemMap)[key]) else None
      ensures uses == if key in old(itemMap) then Used(old(uses), key, old(now)) else old(uses)
    {
      hide Partitioned, MinOk, BucketLists.Valid, BucketLists.View;
      if key in itemMap {
        Touch(key);
        return Some(itemMap[key]);
      }
      return None;
    }

    /**
      With capacity 0 every Put of a new key dereferences a missing bucket (`ok` is false).
      Otherwise a Put into a full cache first evicts the key with the least use count and,
      among those, the least recent use.
     */
    method Put(key: K, value: V) returns (ok: bool)
      requires Valid()
      modifies this, freqMap, freqMap.repr
      ensures Valid() && fresh(freqMap.repr - old(freqMap.repr))
      ensures ok <==> capacity != 0
      ensures !ok ==> itemMap == old(itemMap) && uses == old(uses)
      ensures ok && (key in old(itemMap) || |old(itemMap)| != capacity) ==>
                itemMap == old(itemMap)[key := value] && uses == Used(old(uses), key, old(now))
      ensures ok && key !in old(itemMap) && |old(itemMap)| == capacity ==>
                exists victim :: IsVictim(old(uses), victim) &&
                                 itemMap == (old(itemMap) - {victim})[key := value] &&
                                 uses == Used(old(uses) - {victim}, key, old(now))
    {
      hide Partitioned, MinOk, IsVictim, Used, BucketLists.Valid, BucketLists.View;
      if key !in itemMap {
        if |itemMap| == capacity {
          if minUsed !in freqMap.lists {
            FullHasBucket();
            return false;
          }
          var victim := Evict();
        }
        StoreNew(key, value);
      } else {
        assert |itemMap| > 0 by { assert itemMap != map[]; }
        Store(key, value);
      }
      ok := true;
    }

    method StoreNew(key: K, value: V)
      requires Held() && Partitioned(State(), uses, now) && key !in uses && itemMap.Keys == uses.Keys
      requires capacity != 0 && (0 < capacity ==> |itemMap| < capacity)
      modifies this, freqMap, freqMap.repr
      ensures Valid() && itemMap == old(itemMap)[key := value] && uses == Used(old(uses), key, old(now))
      ensures fresh(freqMap.repr - old(freqMap.repr))
    {
      hide Partitioned, MinOk, Used, BucketLists.Valid, BucketLists.View;
      PartitionIgnoresMin(State(), uses, now, 1);
      minUsed := 1;
      Store(key, value);
    }

    method Store(key: K, value: V)
      requires Held() && Partitioned(State(), uses, now) && (if key in uses then MinOk(State(), uses) else minUsed == 1)
      requires itemMap.Keys == uses.Keys && capacity != 0
      requires 0 < capacity ==> if key in uses then |itemMap| <= capacity else |itemMap| < capacity
      modifies this, freqMap, freqMap.repr
      ensures Valid() && itemMap == old(itemMap)[key := value] && uses == Used(old(uses), key, old(now))
      ensures fresh(freqMap.repr - old(freqMap.repr))
    {
      hide Partitioned, MinOk, BucketLists.Valid, BucketLists.View;
      assert itemMap[key := value].Keys == itemMap.Keys + {key};
      itemMap := itemMap[key := value];
      Touch(key);
    }

    lemma FullHasBucket()
      requires Valid() && |itemMap| == capacity && minUsed !in freqMap.lists
      ensures capacity == 0
    {
      hide Partitioned, BucketLists.Valid, BucketLists.View;
      assert uses == map[];
      assert itemMap.Keys == {};
      assert itemMap == map[];
    }

    lemma Occupied()
      requires Valid() && minUsed in freqMap.lists && |itemMap| == capacity
      ensures var b := freqMap.View();
              uses != map[] && MinOk(State(), uses) && minUsed in b && b[minUsed] != [] && 0 < capacity &&
              b[minUsed][|b[minUsed]| - 1].0 in itemMap
    {
      hide BucketLists.Valid, BucketLists.View;
      var k :| k in itemMap.Keys;
      assert uses != map[];
      assert BucketOk(uses, minUsed, freqMap.View()[minUsed]);
    }

    method Evict() returns (victim: K)
      requires Valid() && minUsed in freqMap.lists && |itemMap| == capacity
      modifies this, freqMap, freqMap.repr
      ensures IsVictim(old(uses), victim) && Held() && freqMap.repr == old(freqMap.repr)
      ensures Partitioned(State(), uses, now) && now == old(now)
      ensures uses == old(uses) - {victim} && itemMap == old(itemMap) - {victim} && |itemMap| < capacity
    {
      hide Partitioned, IsVictim, MinOk, BucketLists.Valid, BucketLists.View;
      Occupied();
      LastIsVictim(State(), uses, now);
      EvictedPartitioned(State(), uses, now);
      victim := freqMap.RemoveLast(minUsed);
      freq := freq - {victim};
      uses := uses - {victim};
      assert (itemMap - {victim}).Keys == itemMap.Keys - {victim};
      itemMap := itemMap - {victim};
    }
  }

  lemma PartitionIgnoresMin<K(!new)>(t: Tables<K>, uses: map<K, Use>, now: nat, m: nat)
    requires Partitioned(t, uses, now)
    ensures Partitioned(t.(minUsed := m), uses, now)
  {
    var t' := t.(minUsed := m);
    forall k | k in uses ensures Filed(t', uses, k) {
      assert Filed(t, uses, k);
    }
  }
}
