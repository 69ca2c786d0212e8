/** One ring split in three by two cursors: output, under investigation, input. */
module TriQueue {
  import opened CircularBuffer

  class ThreeQueues<T(0)> {
    const buffer: Ring<T>
    var endOutput: nat
    var endInternal: nat

    // the three regions, oldest first
    ghost var first: seq<T>
    ghost var middle: seq<T>
    ghost var third: seq<T>

    ghost predicate Valid()
      reads this, buffer, buffer.data
    {
      && buffer.Valid() && !buffer.overwrite
      && first + middle + third == buffer.Contents()
      && endOutput == |first| && endInternal == |first| + |middle|
    }

    /** The regions a call leaves. */
    ghost predicate Holds(f: seq<T>, m: seq<T>, t: seq<T>)
      reads this, buffer, buffer.data
    {
      Valid() && first == f && middle == m && third == t
    }

    constructor (capacity: nat)
      requires 2 <= capacity
      ensures fresh(buffer) && fresh(buffer.data)
      ensures Holds([], [], []) && buffer.data.Length == capacity
    {
      buffer := new Ring<T>(capacity, false);
      endOutput, endInternal := 0, 0;
      first, middle, third := [], [], [];
    }

    predicate Empty()
      requires Valid()
      reads this, buffer, buffer.data
      ensures Empty() <==> first + middle + third == []
    {
      buffer.size == 0
    }

    predicate MiddleEmpty()
      requires Valid()
      reads this, buffer, buffer.data
      ensures MiddleEmpty() <==> middle == []
    {
      endInternal == endOutput
    }

    predicate ThirdEmpty()
      requires Valid()
      reads this, buffer, buffer.data
      ensures ThirdEmpty() <==> third == []
    {
      endInternal == buffer.size
    }

    predicate CanPop()
      requires Valid()
      reads this, buffer, buffer.data
      ensures CanPop() <==> first != []
    {
      0 != endOutput
    }

    /** Gives the middle region back to the input, without moving an item. */
    method RewindMiddle()
      requires Valid()
      modifies this
      ensures Holds(old(first), [], old(middle) + old(third))
    {
      endInternal := endOutput;
      middle, third := [], middle + third;
    }

    /** The queue stays valid iff there was a free slot. A full ring does not overwrite: the item is not
        stored, the cursors stay, and the ring counts one item more than it has slots. */
    method Push(item: T)
      requires Valid()
      modifies this, buffer, buffer.data
      ensures buffer.data == old(buffer.data)
      ensures Valid() <==> old(buffer.size) < buffer.data.Length
      ensures Valid() ==> Holds(old(first), old(middle), old(third) + [item])
      ensures !Valid() ==> buffer.size == buffer.data.Length + 1 && buffer.data[..] == old(buffer.data[..])
      ensures endOutput == old(endOutput) && endInternal == old(endInternal)
    {
      buffer.PushBack(item);
      third := third + [item];
    }

    /** Removes the oldest item; the cursors are relative, so both move back with it. */
    method Pop() returns (item: T)
      requires Valid() && first != []
      modifies this, buffer
      ensures item == old(first)[0] && buffer.data == old(buffer.data)
      ensures Holds(old(first)[1..], old(middle), old(third))
    {
      item := buffer.Front();
      buffer.PopFront();
      endOutput := endOutput - 1;
      endInternal := endInternal - 1;
      first := first[1..];
    }

    method PeekThird() returns (item: T)
      requires Valid() && third != []
      ensures item == third[0]
    {
      item := buffer.At(endInternal);
    }

    method PeekMiddle() returns (item: T)
      requires Valid() && middle != []
      ensures item == middle[0]
    {
      item := buffer.At(endOutput);
    }

    /** Writes through the reference that peek_third returns. */
    method RewriteThird(item: T)
      requires Valid() && third != []
      modifies this, buffer.data
      ensures Holds(old(first), old(middle), old(third)[0 := item])
    {
      buffer.Set(endInternal, item);
      third := third[0 := item];
    }

    /** Writes through the reference that peek_middle returns. */
    method RewriteMiddle(item: T)
      requires Valid() && middle != []
      modifies this, buffer.data
      ensures Holds(old(first), old(middle)[0 := item], old(third))
    {
      buffer.Set(endOutput, item);
      middle := middle[0 := item];
    }

    /** Moves the head of the middle region to the output; does nothing when there is none. */
    method MoveToFirst()
      requires Valid()
      modifies this
      ensures if old(middle) == [] then Holds(old(first), [], old(third))
              else Holds(old(first) + [old(middle)[0]], old(middle)[1..], old(third))
    {
      if MiddleEmpty() {
        return;
      }
      endOutput := endOutput + 1;
      first, middle := first + [middle[0]], middle[1..];
    }

    /** Moves the head of the input under investigation; does nothing when there is none. */
    method MoveToSecond()
      requires Valid()
      modifies this
      ensures if old(third) == [] then Holds(old(first), old(middle), [])
              else Holds(old(first), old(middle) + [old(third)[0]], old(third)[1..])
    {
      if ThirdEmpty() {
        return;
      }
      endInternal := endInternal + 1;
      middle, third := middle + [third[0]], third[1..];
    }

    /** The oldest item of any region. */
    method Oldest() returns (found: bool, item: T)
      requires Valid()
      ensures found <==> first + middle + third != []
      ensures found ==> item == (first + middle + third)[0]
    {
      found := buffer.size != 0;
      if found {
        item := buffer.Front();
      } else {
        item := *;
      }
    }
  }
}
