/** `pkg/basic/object_priority_queue.go`: a binary heap ordered by the elements' strings. */
module PriorityQueues {
  import opened Options
  import opened Numerals

  // How elements are ordered: by their String, largest first if `max`.
  datatype Order<!T> = Order(text: T -> string, max: bool) {
    // `compare(i, j)`: x must not stand above y.
    predicate Worse(x: T, y: T) {
      if max then Less(text(x), text(y)) else Less(text(y), text(x))
    }

    predicate Fine(x: T, y: T) { !Worse(x, y) }

    /** In a max queue no string above is less than one below; in any other no string below is less than one above. */
    lemma FineByText(x: T, y: T)
      ensures Fine(x, y) <==> if max then !Less(text(x), text(y)) else !Less(text(y), text(x))
    {
    }

    lemma FineOrTurned(x: T, y: T)
      ensures Worse(x, y) ==> Fine(y, x)
      ensures Fine(x, x)
    {
      LessIrreflexive(text(x));
      if Worse(x, y) && Worse(y, x) {
        if max {
          LessTransitive(text(x), text(y), text(x));
        } else {
          LessTransitive(text(y), text(x), text(y));
          LessIrreflexive(text(y));
        }
      }
    }

    lemma FineTransitive(x: T, y: T, z: T)
      requires Fine(x, y) && Fine(y, z)
      ensures Fine(x, z)
    {
      var a, b, c := text(x), text(y), text(z);
      LessTotal(a, b);
      LessTotal(b, c);
      if Worse(x, z) {
        // a lies strictly on the wrong side of c, and b between them at best
        if max && a != b {
          LessTransitive(b, a, c);
        } else if !max && b != c {
          LessTransitive(b, c, a);
        }
      }
    }
  }

  function Parent(i: nat): nat
    requires 0 < i
  {
    (i - 1) / 2
  }

  // Every element may stand below its parent.
  ghost predicate Heap<T>(o: Order<T>, a: seq<T>) {
    forall j :: 0 < j < |a| ==> o.Fine(a[Parent(j)], a[j])
  }

  // Heap order but for the pair above `i`, whose children may stand below i's parent.
  ghost predicate HeapAbove<T>(o: Order<T>, a: seq<T>, i: nat) {
    && i < |a|
    && (forall j :: 0 < j < |a| && j != i ==> o.Fine(a[Parent(j)], a[j]))
    && (forall j :: 0 < i && 0 < j < |a| && Parent(j) == i ==> o.Fine(a[Parent(i)], a[j]))
  }

  // Heap order but for the pairs below `i`, whose children may stand below i's parent.
  ghost predicate HeapBelow<T>(o: Order<T>, a: seq<T>, i: nat) {
    && i < |a|
    && (forall j :: 0 < j < |a| && Parent(j) != i ==> o.Fine(a[Parent(j)], a[j]))
    && (forall j :: 0 < i && 0 < j < |a| && Parent(j) == i ==> o.Fine(a[Parent(i)], a[j]))
  }

  function Swapped<T>(a: seq<T>, i: nat, j: nat): seq<T>
    requires i < |a| && j < |a|
  {
    a[i := a[j]][j := a[i]]
  }

  lemma SwapKeepsElements<T>(a: seq<T>, i: nat, j: nat)
    requires i < |a| && j < |a|
    ensures multiset(Swapped(a, i, j)) == multiset(a)
  {
  }

  /** One round of `up`: the element rises, and the gap in the order rises with it. */
  lemma SwapUp<T>(o: Order<T>, a: seq<T>, i: nat)
    requires HeapAbove(o, a, i) && 0 < i && o.Worse(a[Parent(i)], a[i])
    ensures HeapAbove(o, Swapped(a, Parent(i), i), Parent(i))
  {
    var p := Parent(i);
    var b := Swapped(a, p, i);
    o.FineOrTurned(a[p], a[i]);
    forall j | 0 < j < |b| && j != p ensures o.Fine(b[Parent(j)], b[j]) {
      if Parent(j) == p && j != i {
        o.FineTransitive(a[i], a[p], a[j]);
      }
    }
    forall j | 0 < p && 0 < j < |b| && Parent(j) == p ensures o.Fine(b[Parent(p)], b[j]) {
      if j != i {
        o.FineTransitive(a[Parent(p)], a[p], a[j]);
      }
    }
  }

  // The child that `down` picks: the best of `i` and its children.
  function Best<T>(o: Order<T>, a: seq<T>, i: nat): (t: nat)
    requires i < |a|
    ensures t < |a| && (t == i || (0 < t && Parent(t) == i))
  {
    var t := if 2 * i + 1 < |a| && o.Worse(a[i], a[2 * i + 1]) then 2 * i + 1 else i;
    if 2 * i + 2 < |a| && o.Worse(a[t], a[2 * i + 2]) then 2 * i + 2 else t
  }

  lemma BestIsFine<T>(o: Order<T>, a: seq<T>, i: nat)
    requires i < |a|
    ensures o.Fine(a[Best(o, a, i)], a[i])
    ensures forall j :: 0 < j < |a| && Parent(j) == i ==> o.Fine(a[Best(o, a, i)], a[j])
  {
    var l, r, t := 2 * i + 1, 2 * i + 2, Best(o, a, i);
    o.FineOrTurned(a[i], a[i]);
    if l < |a| {
      o.FineOrTurned(a[i], a[l]);
      o.FineOrTurned(a[l], a[l]);
    }
    if r < |a| {
      o.FineOrTurned(a[i], a[r]);
      o.FineOrTurned(a[l], a[r]);
      o.FineOrTurned(a[r], a[r]);
      if t == r {
        if o.Worse(a[i], a[l]) {
          o.FineTransitive(a[r], a[l], a[i]);
        } else {
          o.FineTransitive(a[r], a[i], a[l]);
        }
      }
    }
    forall j | 0 < j < |a| && Parent(j) == i ensures o.Fine(a[t], a[j]) {
      assert j == l || j == r;
    }
  }

  /** One round of `down`: either the order is whole, or the gap moves to the chosen child. */
  lemma SwapDown<T>(o: Order<T>, a: seq<T>, i: nat)
    requires HeapBelow(o, a, i)
    ensures var t := Best(o, a, i);
            if t == i then Heap(o, a) else HeapBelow(o, Swapped(a, i, t), t)
  {
    var t := Best(o, a, i);
    BestIsFine(o, a, i);
    if t != i {
      var b := Swapped(a, i, t);
      forall j | 0 < j < |b| && Parent(j) != t ensures o.Fine(b[Parent(j)], b[j]) {
        if Parent(j) == i && j != t {
          assert o.Fine(a[t], a[j]);
        } else if j == i {
          assert o.Fine(a[Parent(i)], a[t]);
        }
      }
      forall j | 0 < j < |b| && Parent(j) == t ensures o.Fine(b[Parent(t)], b[j]) {
        assert o.Fine(a[t], a[j]);
      }
    } else {
      forall j | 0 < j < |a| ensures o.Fine(a[Parent(j)], a[j]) {
      }
    }
  }

  /** The root of a heap may stand above every element. */
  lemma {:induction false} RootIsBest<T>(o: Order<T>, a: seq<T>, j: nat)
    requires Heap(o, a) && j < |a|
    ensures o.Fine(a[0], a[j])
  {
    if j == 0 {
      o.FineOrTurned(a[0], a[0]);
    } else {
      RootIsBest(o, a, Parent(j));
      o.FineTransitive(a[0], a[Parent(j)], a[j]);
    }
  }

  // ---------- the queue ----------

  class ObjectPriorityQueue<T(0)> {
    const order: Order<T>
    var arr: array<T>  // the backing array; the slice in use is arr[..size]
    var size: nat

    ghost predicate Valid()
      reads this, arr
      ensures Valid() ==> size <= arr.Length
    {
      size <= arr.Length && Heap(order, arr[..size])
    }

    constructor (order: Order<T>)
      ensures Valid() && size == 0 && this.order == order && fresh(arr)
    {
      this.order := order;
      arr := new T[0];
      size := 0;
    }

    method Swap(i: nat, j: nat)
      requires i < size && j < size <= arr.Length
      modifies arr
      ensures arr[..size] == Swapped(old(arr[..size]), i, j)
    {
      var tmp := arr[i];
      arr[i] := arr[j];
      arr[j] := tmp;
    }

    method Up(k: nat)
      requires size <= arr.Length && HeapAbove(order, arr[..size], k)
      modifies arr
      ensures Valid() && multiset(arr[..size]) == old(multiset(arr[..size]))
    {
      var i: nat := k;
      while i > 0
        invariant HeapAbove(order, arr[..size], i) && i < size
        invariant multiset(arr[..size]) == old(multiset(arr[..size]))
      {
        var parent := (i - 1) / 2;
        ghost var a := arr[..size];
        if !order.Worse(arr[parent], arr[i]) {
          assert Heap(order, a);
          break;
        }
        SwapUp(order, a, i);
        SwapKeepsElements(a, parent, i);
        Swap(parent, i);
        i := parent;
      }
    }

    method Down(i: nat)
      requires size <= arr.Length && HeapBelow(order, arr[..size], i)
      modifies arr
      ensures Valid() && multiset(arr[..size]) == old(multiset(arr[..size]))
      decreases size - i
    {
      ghost var a := arr[..size];
      var t := i;
      if 2 * i + 1 < size && order.Worse(arr[t], arr[2 * i + 1]) {
        t := 2 * i + 1;
      }
      if 2 * i + 2 < size && order.Worse(arr[t], arr[2 * i + 2]) {
        t := 2 * i + 2;
      }
      assert t == Best(order, a, i);
      SwapDown(order, a, i);
      if t != i {
        SwapKeepsElements(a, i, t);
        Swap(i, t);
        Down(t);
      }
    }

    method Offer(e: T)
      requires Valid()
      modifies this, arr
      ensures Valid() && size == old(size) + 1 && (arr == old(arr) || fresh(arr))
      ensures multiset(arr[..size]) == old(multiset(arr[..size])) + multiset{e}
    {
      ghost var a := arr[..size];
      if size == arr.Length {
        Resize(2 * size + 1);  // append may choose any larger capacity
      }
      arr[size] := e;
      size := size + 1;
      assert arr[..size] == a + [e];
      Up(size - 1);
    }

    // A copy of the slice with another capacity.
    method Resize(capacity: nat)
      requires size <= arr.Length && size <= capacity
      modifies this`arr
      ensures fresh(arr) && arr.Length == capacity && arr[..size] == old(arr[..size])
    {
      var newArr, source, n := new T[capacity], arr, size;
      for k := 0 to n
        invariant newArr[..k] == source[..k]
        modifies newArr
      {
        newArr[k] := source[k];
      }
      arr := newArr;
    }

    method Peek() returns (e: Option<T>)
      requires Valid()
      ensures e == if size == 0 then None else Some(arr[0])
      ensures e.Some? ==> forall j :: 0 <= j < size ==> order.Fine(e.value, arr[j])
    {
      if size == 0 {
        return None;
      }
      forall j | 0 <= j < size ensures order.Fine(arr[0], arr[j]) {
        RootIsBest(order, arr[..size], j);
      }
      return Some(arr[0]);
    }

    /** Poll removes an element that no other element is better than. */
    method Poll() returns (e: Option<T>)
      requires Valid()
      modifies this, arr
      ensures Valid() && (arr == old(arr) || fresh(arr))
      ensures old(size) == 0 ==> e == None && size == 0
      ensures old(size) > 0 ==>
                && e == Some(old(arr[0])) && size == old(size) - 1
                && multiset(arr[..size]) == old(multiset(arr[..size])) - multiset{e.value}
                && (forall x :: x in old(multiset(arr[..size])) ==> order.Fine(e.value, x))
    {
      hide Heap, HeapBelow;
      if size == 0 {
        return None;
      }
      ghost var a := arr[..size];
      FirstIsBest(order, a);
      e := Some(arr[0]);
      RemoveRoot();
      var half := arr.Length / 2;
      if size < half && arr.Length > 512 {
        Resize(half);
      }
    }

    method RemoveRoot()
      requires Valid() && 0 < size
      modifies this`size, arr
      ensures Valid() && size == old(size) - 1
      ensures multiset(arr[..size]) == old(multiset(arr[..size])) - multiset{old(arr[0])}
    {
      hide Heap, HeapBelow;
      ghost var a := arr[..size];
      RerootedHeap(order, a);
      RerootedElements(a);
      size := size - 1;
      if size > 0 {
        arr[0] := arr[size];
        assert arr[..size] == Rerooted(a);
        hide Rerooted;
        Down(0);
      } else {
        assert arr[..size] == Rerooted(a);
      }
    }
  }

  lemma FirstIsBest<T>(o: Order<T>, a: seq<T>)
    requires Heap(o, a) && a != []
    ensures forall x :: x in multiset(a) ==> o.Fine(a[0], x)
  {
    forall x | x in multiset(a) ensures o.Fine(a[0], x) {
      assert x in a;
      var j :| 0 <= j < |a| && a[j] == x;
      RootIsBest(o, a, j);
    }
  }

  // The last element takes the root's place.
  ghost function Rerooted<T>(a: seq<T>): (b: seq<T>)
    requires a != []
    ensures |b| == |a| - 1
  {
    var n := |a| - 1;
    if n == 0 then [] else a[..n][0 := a[n]]
  }

  lemma RerootedElements<T>(a: seq<T>)
    requires a != []
    ensures multiset(Rerooted(a)) == multiset(a) - multiset{a[0]}
  {
    var n := |a| - 1;
    if n == 0 {
      assert a == [a[0]];
    } else {
      var m := a[1..n];
      assert a == [a[0]] + (m + [a[n]]);
      assert Rerooted(a) == [a[n]] + m;
      AppendTwice(a[0], m, a[n]);
    }
  }

  lemma AppendTwice<T>(x: T, m: seq<T>, y: T)
    ensures multiset([x] + (m + [y])) - multiset{x} == multiset([y] + m)
  {
  }

  lemma RerootedHeap<T>(o: Order<T>, a: seq<T>)
    requires Heap(o, a) && a != []
    ensures if |a| == 1 then Heap(o, Rerooted(a)) else HeapBelow(o, Rerooted(a), 0)
  {
    var b := Rerooted(a);
    forall j | 0 < j < |b| && Parent(j) != 0 ensures o.Fine(b[Parent(j)], b[j]) {
      assert o.Fine(a[Parent(j)], a[j]);
    }
  }

  ghost predicate Sorted<T>(o: Order<T>, out: seq<T>) {
    forall i, j :: 0 <= i < j < |out| ==> o.Fine(out[i], out[j])
  }

  // The strings never fall, or never rise, along the sequence.
  ghost predicate Rising<T>(text: T -> string, out: seq<T>) {
    forall i, j :: 0 <= i < j < |out| ==> !Less(text(out[j]), text(out[i]))
  }

  ghost predicate Falling<T>(text: T -> string, out: seq<T>) {
    forall i, j :: 0 <= i < j < |out| ==> !Less(text(out[i]), text(out[j]))
  }

  /** A max queue is sorted by falling strings, any other by rising ones. */
  lemma SortedByText<T>(o: Order<T>, out: seq<T>)
    ensures Sorted(o, out) <==> if o.max then Falling(o.text, out) else Rising(o.text, out)
  {
    forall i, j | 0 <= i < j < |out|
      ensures o.Fine(out[i], out[j]) <==> if o.max then !Less(o.text(out[i]), o.text(out[j])) else !Less(o.text(out[j]), o.text(out[i]))
    {
      o.FineByText(out[i], out[j]);
    }
  }

  lemma SortedEmpty<T>(o: Order<T>)
    ensures Sorted(o, [])
  {
  }

  lemma SortedSnoc<T>(o: Order<T>, out: seq<T>, e: T)
    requires Sorted(o, out) && forall x :: x in multiset(out) ==> o.Fine(x, e)
    ensures Sorted(o, out + [e])
  {
    forall i | 0 <= i < |out| ensures o.Fine(out[i], e) {
      assert out[i] in multiset(out);
    }
  }

  /** Polling until the queue is empty yields a sorted permutation of what it held. */
  method Drain<T(0)>(q: ObjectPriorityQueue<T>) returns (out: seq<T>)
    requires q.Valid()
    modifies q, q.arr
    ensures q.Valid() && q.size == 0
    ensures Sorted(q.order, out) && multiset(out) == old(multiset(q.arr[..q.size]))
    ensures if q.order.max then Falling(q.order.text, out) else Rising(q.order.text, out)
  {
    hide Heap, Sorted, ObjectPriorityQueue.Valid;
    out := [];
    SortedEmpty(q.order);
    ghost var all := multiset(q.arr[..q.size]);
    while q.size > 0
      invariant q.Valid() && (q.arr == old(q.arr) || fresh(q.arr))
      invariant Sorted(q.order, out) && multiset(out) + multiset(q.arr[..q.size]) == all
      invariant forall x, y :: x in multiset(out) && y in multiset(q.arr[..q.size]) ==> q.order.Fine(x, y)
      decreases q.size
    {
      ghost var before := multiset(q.arr[..q.size]);
      assert q.arr[0] in q.arr[..q.size];
      var e := q.Poll();
      SortedSnoc(q.order, out, e.value);
      out := out + [e.value];
    }
    SortedByText(q.order, out);
  }
}
