/** The ring under the queue: an array, the slot of the oldest item, the slot of the newest, a count. */
module CircularBuffer {

  /** The slot of the item at `index`. */
  function Slot(head: nat, index: nat, capacity: nat): (slot: nat)
    requires head < capacity && index <= capacity
    ensures slot < capacity
  {
    if head + index < capacity then head + index else head + index - capacity
  }

  /** It is what the ring computes by normalising the index modulo its capacity. */
  lemma SlotIsNormalised(head: nat, index: nat, capacity: nat)
    requires head < capacity && index <= capacity
    ensures (index + head) % capacity == Slot(head, index, capacity)
  {
    if head + index < capacity {
      assert (index + head) / capacity == 0;
    } else {
      OneLap(capacity, index + head - capacity);
    }
  }

  lemma OneLap(n: nat, r: nat)
    requires r < n
    ensures (n + r) % n == r
  {
    var q := (n + r) / n;
    assert n + r == n * q + (n + r) % n;
    Product(n, q);
  }

  lemma Product(n: nat, q: nat)
    ensures q == 0 ==> n * q == 0
    ensures q == 1 ==> n * q == n
    ensures q >= 2 ==> n * q >= n + n
  {
    if q >= 2 {
      assert n * q == n + n + n * (q - 2);
    }
  }

  // ---- The abstract ring ----

  /** What a push does to a ring that is not full, or that overwrites. */
  function Pushed<T>(s: seq<T>, item: T, capacity: nat): (r: seq<T>)
    requires 0 < capacity && |s| <= capacity
    ensures |r| <= capacity
  {
    if |s| < capacity then s + [item] else s[1..] + [item]
  }

  datatype Op<T> = PushBack(item: T) | PopFront

  /** The last `n` items, or all when there are fewer. */
  function Last<T>(items: seq<T>, n: nat): seq<T> {
    if |items| <= n then items else items[|items| - n..]
  }

  lemma PushedIsLast<T>(items: seq<T>, k: nat, capacity: nat)
    requires 0 < capacity && k < |items|
    ensures |Last(items[..k], capacity)| <= capacity
    ensures Pushed(Last(items[..k], capacity), items[k], capacity) == Last(items[..k + 1], capacity)
  {
    assert items[..k + 1] == items[..k] + [items[k]];
  }

  /** The ring after some pushes and pops (a pop needs an item to remove). */
  function After<T>(ops: seq<Op<T>>, capacity: nat): (r: seq<T>)
    requires 0 < capacity
    ensures |r| <= capacity
  {
    if ops == [] then []
    else
      var before, op := After(ops[..|ops|-1], capacity), ops[|ops|-1];
      if op.PushBack? then Pushed(before, op.item, capacity)
      else if before == [] then []
      else before[1..]
  }

  /** Every item ever pushed, in order. */
  function History<T>(ops: seq<Op<T>>): seq<T> {
    if ops == [] then []
    else
      var before, op := History(ops[..|ops|-1]), ops[|ops|-1];
      if op.PushBack? then before + [op.item] else before
  }

  /** How many items the window spans: one more per push up to the capacity, one less per pop. */
  function Width<T>(ops: seq<Op<T>>, capacity: nat): nat {
    if ops == [] then 0
    else
      var before := Width(ops[..|ops|-1], capacity);
      if ops[|ops|-1].PopFront? then if before == 0 then 0 else before - 1
      else if before == capacity then capacity
      else before + 1
  }

  /** No pop finds the ring empty. */
  ghost predicate Legal<T>(ops: seq<Op<T>>, capacity: nat) {
    forall i: nat :: i < |ops| && ops[i].PopFront? ==> Width(ops[..i], capacity) > 0
  }

  /** The overwriting ring is a sliding window: it always holds the most recent items pushed, in order; and
      an item leaves it only by a pop, or by a push when it is full. */
  lemma {:induction false} RingIsWindow<T>(ops: seq<Op<T>>, capacity: nat)
    requires 0 < capacity
    ensures |After(ops, capacity)| == Width(ops, capacity) <= |History(ops)|
    ensures After(ops, capacity) == History(ops)[|History(ops)| - Width(ops, capacity)..]
  {
    if ops != [] {
      RingIsWindow(ops[..|ops|-1], capacity);
    }
  }

  lemma {:induction false} PushesWiden<T>(ops: seq<Op<T>>, capacity: nat)
    requires forall i :: 0 <= i < |ops| ==> ops[i].PushBack?
    ensures |History(ops)| == |ops| && Width(ops, capacity) == if |ops| <= capacity then |ops| else capacity
  {
    if ops != [] {
      PushesWiden(ops[..|ops|-1], capacity);
    }
  }

  /** With pushes alone it holds the last min(n, capacity) of them. */
  lemma RingHoldsLast<T>(ops: seq<Op<T>>, capacity: nat)
    requires 0 < capacity && forall i :: 0 <= i < |ops| ==> ops[i].PushBack?
    ensures |History(ops)| == |ops|
    ensures After(ops, capacity) == Last(History(ops), capacity)
  {
    RingIsWindow(ops, capacity);
    PushesWiden(ops, capacity);
  }

  // ---- The ring itself ----

  class Ring<T(0)> {
    // always_accept_data_when_full
    const overwrite: bool
    var data: array<T>
    var head: nat
    var tail: nat
    var size: nat

    ghost predicate Valid()
      reads this
    {
      && 2 <= data.Length
      && head < data.Length && tail < data.Length && size <= data.Length
      && NextTail() == Slot(head, size, data.Length)
    }

    /** The items, oldest first. */
    function Contents(): (s: seq<T>)
      requires Valid()
      reads this, data
      ensures |s| == size
    {
      seq(size, i requires 0 <= i < size && Valid() reads this, data => data[Slot(head, i, data.Length)])
    }

    function NextTail(): nat
      reads this
    {
      if tail + 1 == data.Length then 0 else tail + 1
    }

    constructor (capacity: nat, overwrite: bool)
      requires 2 <= capacity
      ensures Valid() && fresh(data)
      ensures Contents() == [] && data.Length == capacity && this.overwrite == overwrite
    {
      this.overwrite := overwrite;
      data := new T[capacity];
      head, tail, size := 1, 0, 0;
    }

    method IncrementTail()
      modifies this`tail, this`size
      ensures size == old(size) + 1 && tail == old(NextTail())
    {
      size := size + 1;
      tail := NextTail();
    }

    method IncrementHead()
      requires size > 0
      modifies this`head, this`size
      ensures size == old(size) - 1 && head == if old(head) + 1 == data.Length then 0 else old(head) + 1
    {
      head := head + 1;
      size := size - 1;
      if head == data.Length {
        head := 0;
      }
    }

    /** Stores the item, dropping the oldest if the ring is full and overwrites. A full ring that does
        not overwrite stores nothing, yet still counts the item: it then claims one item more than it
        has slots, and is no longer valid. So the push is honoured iff it finds room or may overwrite. */
    method PushBack(item: T)
      requires Valid()
      modifies this`head, this`tail, this`size, data
      ensures Valid() <==> old(size) < data.Length || overwrite
      ensures Valid() ==> Contents() == Pushed(old(Contents()), item, data.Length)
      ensures !Valid() ==> size == data.Length + 1 && head == old(head) && data[..] == old(data[..])
    {
      ghost var s, capacity := Contents(), data.Length;
      var next := NextTail();
      if size == data.Length {
        if overwrite {
          assert next == head;
          data[next] := item;
          IncrementHead();
        }
      } else {
        data[next] := item;
      }
      IncrementTail();
      if |s| < capacity {
        assert Contents() == s + [item];
      } else if overwrite {
        assert Contents() == s[1..] + [item];
      }
    }

    method PopFront()
      requires Valid() && size > 0
      modifies this`head, this`size
      ensures Valid() && Contents() == old(Contents())[1..]
    {
      IncrementHead();
      assert Contents() == old(Contents())[1..];
    }

    method Clear()
      requires Valid()
      modifies this`head, this`tail, this`size
      ensures Valid() && Contents() == []
    {
      head := 1;
      tail, size := 0, 0;
    }

    method Front() returns (item: T)
      requires Valid() && size > 0
      ensures item == Contents()[0]
    {
      item := data[head];
    }

    method Back() returns (item: T)
      requires Valid() && size > 0
      ensures item == Contents()[size - 1]
    {
      item := data[tail];
    }

    method At(index: nat) returns (item: T)
      requires Valid() && index < size
      ensures item == Contents()[index]
    {
      SlotIsNormalised(head, index, data.Length);
      item := data[(index + head) % data.Length];
    }

    /** Writes through the reference that operator[] returns. */
    method Set(index: nat, item: T)
      requires Valid() && index < size
      modifies data
      ensures Valid() && Contents() == old(Contents())[index := item]
    {
      SlotIsNormalised(head, index, data.Length);
      data[(index + head) % data.Length] := item;
      assert Contents() == old(Contents())[index := item];
    }

    /** Performs the operations on an empty overwriting ring. */
    method Perform(ops: seq<Op<T>>)
      requires Valid() && overwrite && Contents() == [] && Legal(ops, data.Length)
      modifies this`head, this`tail, this`size, data
      ensures Valid() && Contents() == After(ops, data.Length)
    {
      for i := 0 to |ops|
        invariant Valid() && data == old(data)
        invariant Contents() == After(ops[..i], data.Length)
      {
        assert ops[..i + 1][..i] == ops[..i];
        RingIsWindow(ops[..i], data.Length);
        match ops[i] {
          case PushBack(item) => PushBack(item);
          case PopFront => PopFront();
        }
      }
      assert ops[..|ops|] == ops;
    }

    /** Replaces the contents; an overwriting ring keeps the items that fit, the last ones. */
    method AssignInto(items: seq<T>)
      requires Valid() && (|items| <= data.Length || overwrite)
      modifies this`head, this`tail, this`size, data
      ensures Valid() && Contents() == Last(items, data.Length)
    {
      if size != 0 {
        Clear();
      }
      var from := 0;
      while from != |items|
        invariant 0 <= from <= |items|
        invariant Valid() && data == old(data)
        invariant size < data.Length || overwrite || from == |items|
        invariant Contents() == Last(items[..from], data.Length)
      {
        ghost var before := Contents();
        PushBack(items[from]);
        assert Contents() == Pushed(before, items[from], data.Length);
        PushedIsLast(items, from, data.Length);
        from := from + 1;
      }
      assert items[..from] == items;
    }

    /** Moves to a larger array, keeping the contents; `copied` counts the items moved. */
    method Reserve(capacity: nat) returns (copied: nat)
      requires Valid()
      modifies this`data, this`head, this`tail, this`size
      ensures Valid() && Contents() == old(Contents())
      ensures data.Length == if old(data.Length) < capacity then capacity else old(data.Length)
      ensures old(data.Length) < capacity ==> fresh(data) && copied == old(size)
      ensures capacity <= old(data.Length) ==> data == old(data) && copied == 0
    {
      copied := 0;
      if data.Length < capacity {
        var items := Contents();
        copied := |items|;
        var tmp := new Ring<T>(capacity, overwrite);
        tmp.AssignInto(items);
        data, head, tail, size := tmp.data, tmp.head, tmp.tail, tmp.size;
        assert Contents() == tmp.Contents();
      }
    }

    /** A push into a ring that grows by half when it is full. */
    method PushReserving(item: T) returns (copied: nat)
      requires Valid()
      modifies this`data, this`head, this`tail, this`size, data
      ensures Valid() && Contents() == old(Contents()) + [item]
      ensures data == old(data) || fresh(data)
      ensures if old(size) == old(data.Length)
              then copied == old(data.Length) && data.Length == copied * 3 / 2
              else copied == 0 && data.Length == old(data.Length)
    {
      copied := 0;
      if size == data.Length {
        copied := Reserve(data.Length * 3 / 2);
      }
      PushBack(item);
    }

    /** Assigns any number of items, growing by half whenever the ring is full. Nothing is lost, for
        either policy, and the items copied by the growing are at most 3 times the final capacity. */
    method AssignIntoReserving(items: seq<T>) returns (copied: nat)
      requires Valid()
      modifies this`data, this`head, this`tail, this`size, data
      ensures Valid() && Contents() == items
      ensures data == old(data) || fresh(data)
      ensures old(data.Length) <= data.Length && copied <= 3 * data.Length
    {
      if size != 0 {
        Clear();
      }
      copied := 0;
      var from := 0;
      while from != |items|
        invariant 0 <= from <= |items|
        invariant Valid() && Contents() == items[..from]
        invariant data == old(data) || fresh(data)
        invariant old(data.Length) <= data.Length
        invariant copied <= 3 * data.Length && (data.Length == 2 ==> copied == 0)
      {
        var moved := PushReserving(items[from]);
        copied := copied + moved;
        assert items[..from + 1] == items[..from] + [items[from]];
        from := from + 1;
      }
    }
  }
}
