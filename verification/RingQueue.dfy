/** `pkg/basic/safe_ring_queue.go`: a bounded FIFO queue over a circular buffer. */
module RingQueue {
  import opened Options

  // Position of the i-th queued element of a buffer of length `cap`, and of the next free slot.
  function Slot(head: nat, i: nat, cap: nat): (p: nat)
    requires head < cap && i <= cap
    ensures p < cap
  {
    if head + i < cap then head + i else head + i - cap
  }

  function Next(i: nat, cap: nat): (n: nat)
    requires i < cap
    ensures n == Slot(i, 1, cap)
  {
    (i + 1) % cap
  }

  class SafeRingQueue<T> {
    ghost var contents: seq<T>  // the queued elements, oldest first

    const capacity: nat
    const data: array<Option<T>>
    var head: nat
    var tail: nat
    var size: nat

    ghost predicate Valid()
      reads this, data
    {
      && data.Length == capacity && size == |contents| <= capacity
      && (0 < capacity ==>
            && head < capacity && tail == Slot(head, size, capacity)
            && forall i :: 0 <= i < capacity ==>
                 data[Slot(head, i, capacity)] == if i < size then Some(contents[i]) else None)
    }

    constructor (cap: nat)
      ensures Valid() && fresh(data) && capacity == cap && contents == []
    {
      capacity := cap;
      data := new Option<T>[cap](_ => None);
      head, tail, size := 0, 0, 0;
      contents := [];
    }

    // Enqueue; BlockEnqueue does the same once there is room.
    method Enqueue(val: T) returns (ok: bool)
      requires Valid()
      modifies this, data
      ensures Valid()
      ensures ok <==> |old(contents)| < capacity
      ensures contents == if ok then old(contents) + [val] else old(contents)
    {
      if size == capacity {
        return false;
      }
      hide Next;
      data[tail] := Some(val);
      tail := Next(tail, capacity);
      size := size + 1;
      contents := contents + [val];
      return true;
    }

    // Dequeue; BlockDequeue does the same once there is an element.
    method Dequeue() returns (val: Option<T>)
      requires Valid()
      modifies this, data
      ensures Valid()
      ensures if old(contents) == [] then val == None && contents == []
              else val == Some(old(contents)[0]) && contents == old(contents)[1..]
    {
      if size == 0 {
        return None;
      }
      hide Next;
      assert data[Slot(head, 0, capacity)] == Some(contents[0]);
      val := data[head];
      data[head] := None;
      head := Next(head, capacity);
      size := size - 1;
      contents := contents[1..];
      forall i | 0 <= i < capacity
        ensures data[Slot(head, i, capacity)] == if i < size then Some(contents[i]) else None
      {
        if i + 1 < capacity {
          assert Slot(head, i, capacity) == Slot(old(head), i + 1, capacity);
        }
      }
    }

    method Peek() returns (val: Option<T>)
      requires Valid()
      ensures val == if contents == [] then None else Some(contents[0])
    {
      if size == 0 {
        return None;
      }
      assert data[Slot(head, 0, capacity)] == Some(contents[0]);
      return data[head];
    }
  }

  // ---------- committing the finished prefix ----------

  // What the committer needs of a queued item: whether it is done, and its last message's offset.
  datatype Queued = Queued(done: bool, last: int)

  function DonePrefix(items: seq<Queued>): (n: nat)
    ensures n <= |items|
    ensures forall i :: 0 <= i < n ==> items[i].done
    ensures n < |items| ==> !items[n].done
  {
    if items == [] || !items[0].done then 0 else 1 + DonePrefix(items[1..])
  }

  /**
    The inner loop of commitCompletedOffsets: it removes exactly the maximal finished prefix
    of the queue and returns the offset of the last message removed.
   */
  method PopDone(q: SafeRingQueue<Queued>) returns (last: Option<int>)
    requires q.Valid()
    modifies q, q.data
    ensures q.Valid()
    ensures var n := DonePrefix(old(q.contents));
            && q.contents == old(q.contents)[n..]
            && last == if n == 0 then None else Some(old(q.contents)[n - 1].last)
  {
    last := None;
    ghost var items := q.contents;
    ghost var n := 0;
    while true
      invariant q.Valid() && n <= |items| && q.contents == items[n..]
      invariant n + DonePrefix(items[n..]) == DonePrefix(items)
      invariant last == if n == 0 then None else Some(items[n - 1].last)
      decreases |items| - n
    {
      var item := q.Peek();
      if item == None {
        break;
      }
      if !item.value.done {
        break;
      }
      assert items[n..][1..] == items[n + 1..];
      last := Some(item.value.last);
      var _ := q.Dequeue();
      n := n + 1;
    }
  }
}
