/**
  `pkg/basic/delay_queue.go`: a heap of deadlines, ordered by their decimal strings, and a
  timer that wakes the taker.  Times are in nanoseconds; the clock readings are parameters.
 */
module DelayQueues {
  import opened Options
  import opened Numerals
  import opened PriorityQueues

  // ---------- decimal strings ----------

  function DecimalDigit(d: nat): char {
    if d < 10 then '0' + (d as char) else '~'
  }

  function Width(n: nat): (w: nat)
    ensures 1 <= w
  {
    if n < 10 then 1 else 1 + Width(n / 10)
  }

  // fmt.Sprintf("%d", n)
  function Decimal(n: int): string {
    if n < 0 then "-" + Numeral(-n, Width(-n), 10, DecimalDigit) else Numeral(n, Width(n), 10, DecimalDigit)
  }

  lemma DecimalDigitsGrow()
    ensures Growing(DecimalDigit, 10)
  {
  }

  lemma {:induction false} WidthFits(n: nat)
    ensures Fits(n, Width(n), 10)
  {
    if n < 10 {
      assert Drop(n, 1, 10) == Drop(n / 10, 0, 10) == n / 10;
    } else {
      WidthFits(n / 10);
    }
  }

  // The number that a string of decimal digits stands for.
  function ValueOf(s: string): int {
    if s == [] then 0 else 10 * ValueOf(s[..|s| - 1]) + (s[|s| - 1] as int - '0' as int)
  }

  lemma {:induction false} NumeralValue(n: nat, w: nat)
    requires Fits(n, w, 10)
    ensures ValueOf(Numeral(n, w, 10, DecimalDigit)) == n
    decreases w
  {
    if w > 0 {
      NumeralValue(n / 10, w - 1);
      var s := Numeral(n, w, 10, DecimalDigit);
      assert s[..|s| - 1] == Numeral(n / 10, w - 1, 10, DecimalDigit);
    }
  }

  lemma {:induction false} FirstDigit(n: nat)
    requires 0 < n
    ensures Numeral(n, Width(n), 10, DecimalDigit)[0] != '0'
  {
    if n >= 10 {
      FirstDigit(n / 10);
    } else {
      assert Numeral(n, 1, 10, DecimalDigit) == Numeral(n / 10, 0, 10, DecimalDigit) + [DecimalDigit(n % 10)];
    }
  }

  /** The decimal string of a number stands for it and has no leading zeros. */
  lemma DecimalIs(n: nat)
    ensures ValueOf(Decimal(n)) == n && Decimal(n) != "" && (0 < n ==> Decimal(n)[0] != '0') && Decimal(0) == "0"
  {
    WidthFits(n);
    NumeralValue(n, Width(n));
    if 0 < n {
      FirstDigit(n);
    }
    assert Numeral(0, 1, 10, DecimalDigit) == Numeral(0, 0, 10, DecimalDigit) + [DecimalDigit(0)];
  }

  lemma {:induction false} DropFits(n: nat, w: nat, k: nat, b: nat)
    requires 0 < b && Fits(n, w + k, b)
    ensures Fits(Drop(n, k, b), w, b)
    decreases k
  {
    if k > 0 {
      DropFits(n / b, w, k - 1, b);
    }
  }

  lemma LessEmpty(s: string)
    ensures Less("", s) <==> s != ""
    ensures !Less(s, "")
  {
  }

  /**
    The bytewise order of two decimal strings, exactly: compare the shorter number with the
    leading digits of the longer one.
   */
  lemma DecimalOrder(n: nat, m: nat)
    requires Width(n) <= Width(m)
    ensures var lead := Drop(m, Width(m) - Width(n), 10);
            && (Less(Decimal(n), Decimal(m)) <==> n < lead || (n == lead && Width(n) < Width(m)))
            && (Less(Decimal(m), Decimal(n)) <==> lead < n)
  {
    hide Less, Numeral, Drop, Growing, Width;
    var w, k := Width(n), Width(m) - Width(n);
    var lead := Drop(m, k, 10);
    var s, t := Decimal(n), Decimal(m);
    DecimalDigitsGrow();
    WidthFits(n);
    WidthFits(m);
    DropFits(m, w, k, 10);
    NumeralPrefix(m, w, k, 10, DecimalDigit);
    NumeralOrder(n, lead, w, 10, DecimalDigit);
    NumeralOrder(lead, n, w, 10, DecimalDigit);
    assert s + "" == s && t == t[..w] + t[w..];
    LessEmpty(t[w..]);
    LessAppend(s, t[..w], "", t[w..]);
    LessAppend(t[..w], s, t[w..], "");
  }

  /** For deadlines with the same number of digits, string order is numeric order. */
  lemma SameWidthOrder(n: nat, m: nat)
    requires Width(n) == Width(m)
    ensures Less(Decimal(n), Decimal(m)) <==> n < m
  {
    DecimalOrder(n, m);
  }

  /** Otherwise it need not be: "10" sorts before "9". */
  lemma ShorterCanSortLater()
    ensures Less(Decimal(10), Decimal(9)) && !Less(Decimal(9), Decimal(10))
  {
    assert Width(10) == 2 && Width(9) == 1;
    DecimalOrder(9, 10);
    assert Drop(10, 1, 10) == Drop(1, 0, 10) == 1;
  }

  // ---------- the queue ----------

  datatype Item<V> = Item(priority: int, value: V)

  function Text<V>(item: Item<V>): string {
    Decimal(item.priority)
  }

  // All deadlines are non-negative and have the same number of digits.
  ghost predicate Uniform<V>(items: multiset<Item<V>>) {
    forall x, y :: x in items && y in items ==>
      0 <= x.priority && 0 <= y.priority && Width(x.priority) == Width(y.priority)
  }

  lemma FineIsEarlier<V>(o: Order<Item<V>>, items: multiset<Item<V>>, x: Item<V>, y: Item<V>)
    requires !o.max && o.text == Text && Uniform(items) && x in items && y in items
    ensures o.Fine(x, y) <==> x.priority <= y.priority
  {
    SameWidthOrder(y.priority, x.priority);
  }

  const MICROSECOND := 1000

  class DelayQueue<V(0)> {
    const heap: ObjectPriorityQueue<Item<V>>
    var wake: int  // when the timer fires

    ghost predicate Valid()
      reads this, heap, heap.arr
      ensures Valid() ==> heap.size <= heap.arr.Length
    {
      heap.Valid() && heap.order == Order(Text, false)
    }

    ghost function Items(): multiset<Item<V>>
      reads this, heap, heap.arr
      requires heap.size <= heap.arr.Length
    {
      multiset(heap.arr[..heap.size])
    }

    // The timer fires no later than the earliest deadline.
    ghost predicate Punctual()
      reads this, heap, heap.arr
      requires heap.size <= heap.arr.Length
    {
      forall x :: x in Items() ==> wake <= x.priority
    }

    constructor (now: int)
      ensures Valid() && Items() == multiset{} && fresh(heap) && fresh(heap.arr)
    {
      heap := new ObjectPriorityQueue(Order(Text, false));
      wake := now + 30_000_000 * MICROSECOND;
    }

    method Add(value: V, deadline: int)
      requires Valid()
      modifies this, heap, heap.arr
      ensures Valid() && Items() == old(Items()) + multiset{Item(deadline, value)}
      ensures heap.arr == old(heap.arr) || fresh(heap.arr)
      ensures Uniform(Items()) && old(Punctual()) ==> Punctual()
    {
      var item := Item(deadline, value);
      ghost var before := Items();
      heap.Offer(item);
      var first := heap.Peek();
      BestIsEarliest(first.value);
      if first.Some? && Text(first.value) == Text(item) {
        wake := first.value.priority;
      }
    }

    // In a uniform queue the heap's first item has the least deadline.
    lemma BestIsEarliest(first: Item<V>)
      requires Valid() && 0 < heap.size && first == heap.arr[0]
      requires forall j :: 0 <= j < heap.size ==> heap.order.Fine(first, heap.arr[j])
      ensures first in Items()
      ensures Uniform(Items()) ==> forall x :: x in Items() ==> first.priority <= x.priority
    {
      assert heap.arr[..heap.size][0] == first;
      if Uniform(Items()) {
        forall x | x in Items() ensures first.priority <= x.priority {
          assert x in heap.arr[..heap.size];
          FineIsEarlier(heap.order, Items(), first, x);
        }
      }
    }
  
    /**
      One round of TakeWithStop under the lock.  It takes only an item that is due within a
      microsecond; in a uniform queue it takes one of least deadline, and takes nothing only
      when nothing is due.
     */
    method TryTake(now: int) returns (taken: Option<Item<V>>)
      requires Valid()
      modifies this, heap, heap.arr
      ensures Valid() && (heap.arr == old(heap.arr) || fresh(heap.arr))
      ensures taken.Some? ==>
                && taken.value in old(Items()) && Items() == old(Items()) - multiset{taken.value}
                && taken.value.priority - now <= MICROSECOND
                && (Uniform(old(Items())) ==> forall x :: x in old(Items()) ==> taken.value.priority <= x.priority)
      ensures taken == None ==>
                && Items() == old(Items())
                && (Uniform(old(Items())) ==> forall x :: x in Items() ==> MICROSECOND < x.priority - now)
      ensures Uniform(old(Items())) ==> Punctual()
      ensures taken == None ==> if Items() == multiset{} then wake == now + 30_000_000 * MICROSECOND
                                else exists x :: x in Items() && wake == x.priority
    {
      hide Uniform, Heap, Valid, Items;
      var first := PeekFirst();
      taken := None;
      var delay := 30_000_000 * MICROSECOND;
      if first.Some? {
        delay := first.value.priority - now;
        if delay <= MICROSECOND {
          taken := PollFirst(first.value);
        }
      }
      Reset(now + delay);
      assert taken == None && first.Some? ==> first.value in Items() && wake == first.value.priority;
    }

    method Reset(t: int)
      requires Valid()
      modifies this`wake
      ensures Valid() && Items() == old(Items()) && wake == t
    {
      wake := t;
    }

    method PeekFirst() returns (first: Option<Item<V>>)
      requires Valid()
      ensures if heap.size == 0 then first == None && Items() == multiset{}
              else first == Some(heap.arr[0]) && first.value in Items()
      ensures first.Some? && Uniform(Items()) ==> forall x :: x in Items() ==> first.value.priority <= x.priority
    {
      hide Width, Decimal, Uniform, Heap;
      first := heap.Peek();
      if first.Some? {
        BestIsEarliest(first.value);
      } else {
        assert heap.arr[..heap.size] == [];
      }
    }

    method PollFirst(ghost first: Item<V>) returns (taken: Option<Item<V>>)
      requires Valid() && 0 < heap.size && first == heap.arr[0]
      modifies heap, heap.arr
      ensures Valid() && (heap.arr == old(heap.arr) || fresh(heap.arr))
      ensures taken == Some(first) && Items() == old(Items()) - multiset{first}
    {
      hide Width, Decimal, Uniform, Heap;
      taken := heap.Poll();
    }

    // What one signal does to a waiting taker.
    method React(signal: Signal<V>) returns (taken: Option<Item<V>>)
      requires Valid() && signal != Stopped
      modifies this, heap, heap.arr
      ensures Valid() && (heap.arr == old(heap.arr) || fresh(heap.arr))
      ensures Items() + Taken(taken) == old(Items()) + Brought(signal)
      ensures taken.Some? ==>
                && signal.Fired? && taken.value.priority <= signal.now + MICROSECOND
                && (Uniform(old(Items())) ==> forall x :: x in Items() ==> taken.value.priority <= x.priority)
    {
      hide Uniform, Heap;
      match signal {
        case Arrived(item) =>
          Add(item.value, item.priority);
          taken := None;
        case Fired(reading) =>
          taken := TryTake(reading);
      }
    }

    /**
      The whole loop, driven by what happens while it waits: the timer fires, another
      goroutine adds an item, or the stop channel closes.  `signals` may end while it waits.
     */
    method TakeWithStop(now: int, signals: seq<Signal<V>>) returns (taken: Option<Item<V>>, used: nat)
      requires Valid()
      modifies this, heap, heap.arr
      ensures Valid() && used <= |signals|
      ensures Items() + Taken(taken) == old(Items()) + Added(signals[..used])
      ensures taken.Some? ==> taken.value.priority <= LastReading(now, signals[..used]) + MICROSECOND
      ensures taken.Some? && Uniform(old(Items()) + Added(signals[..used])) ==>
                forall x :: x in Items() ==> taken.value.priority <= x.priority
      ensures taken == None ==> used == |signals| || signals[used] == Stopped
    {
      hide Uniform, Heap, Added, LastReading, Brought, Items, Valid;
      NoSignals<V>(now);
      ghost var all := Items();  // all items there have been so far
      used := 0;
      taken := React(Fired(now));
      while taken == None && used < |signals| && signals[used] != Stopped
        invariant Valid() && used <= |signals| && (heap.arr == old(heap.arr) || fresh(heap.arr))
        invariant all == old(Items()) + Added(signals[..used]) && Items() + Taken(taken) == all
        invariant taken.Some? ==> taken.value.priority <= LastReading(now, signals[..used]) + MICROSECOND
        invariant taken.Some? && Uniform(all) ==> forall x :: x in Items() ==> taken.value.priority <= x.priority
        decreases |signals| - used
      {
        NextSignal(now, signals, used);
        assert Items() == all;
        taken := React(signals[used]);
        all := all + Brought(signals[used]);
        used := used + 1;
      }
    }
  }

  ghost function Taken<V>(taken: Option<Item<V>>): multiset<Item<V>> {
    if taken.Some? then multiset{taken.value} else multiset{}
  }

  ghost function Brought<V>(signal: Signal<V>): multiset<Item<V>> {
    if signal.Arrived? then multiset{signal.item} else multiset{}
  }

  datatype Signal<V> = Fired(now: int) | Arrived(item: Item<V>) | Stopped

  // The items that arrived, and the latest clock reading.
  ghost function Added<V>(signals: seq<Signal<V>>): multiset<Item<V>> {
    if signals == [] then multiset{}
    else
      Added(signals[..|signals| - 1]) + Brought(signals[|signals| - 1])
  }

  ghost function LastReading<V>(now: int, signals: seq<Signal<V>>): int {
    if signals == [] then now
    else if signals[|signals| - 1].Fired? then signals[|signals| - 1].now
    else LastReading(now, signals[..|signals| - 1])
  }

  lemma NoSignals<V>(now: int)
    ensures Added<V>([]) == multiset{} && LastReading<V>(now, []) == now
    ensures Brought<V>(Fired(now)) == multiset{}
  {
  }

  lemma NextSignal<V>(now: int, signals: seq<Signal<V>>, i: nat)
    requires i < |signals|
    ensures Added(signals[..i + 1]) == Added(signals[..i]) + Brought(signals[i])
    ensures signals[i].Fired? ==>
              LastReading(now, signals[..i + 1]) == signals[i].now && Added(signals[..i + 1]) == Added(signals[..i])
  {
    assert signals[..i + 1][..i] == signals[..i] && signals[..i + 1][i] == signals[i];
  }
}
