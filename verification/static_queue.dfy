/** A bounded first-in first-out queue in a fixed ring of slots. */
module StaticQueues {
  import opened Ring

  class StaticQueue<T> {
    const items: array<T>
    var head: nat
    var size: nat
    /** Refused pushes. */
    var overflow: nat

    ghost predicate Valid()
      reads this
    {
      0 < items.Length && head < items.Length && size <= items.Length
    }

    ghost function View(): (s: seq<T>)
      requires Valid()
      reads this, items
      ensures |s| == size
    {
      seq(size, i requires 0 <= i < size && Valid() reads this, items => items[At(head, i, items.Length)])
    }

    constructor (capacity: nat, blank: T)
      requires capacity > 0
      ensures Valid() && fresh(items) && items.Length == capacity && size == 0
    {
      items := new T[capacity](_ => blank);
      head, size, overflow := 0, 0, 0;
    }

    method Push(value: T) returns (ok: bool)
      requires Valid()
      modifies this, items
      ensures Valid() && ok == (old(size) < items.Length)
      ensures View() == if ok then old(View()) + [value] else old(View())
      ensures overflow == old(overflow) + if ok then 0 else 1
    {
      if size >= items.Length {
        overflow := overflow + 1;
        return false;
      }
      items[At(head, size, items.Length)] := value;
      size := size + 1;
      assert View() == old(View()) + [value];
      return true;
    }

    method Pop(current: T) returns (ok: bool, out: T)
      requires Valid()
      modifies this
      ensures Valid() && ok == (|old(View())| > 0)
      ensures if ok then out == old(View())[0] && View() == old(View())[1..]
                 else out == current && View() == old(View())
      ensures overflow == old(overflow)
    {
      if size == 0 {
        return false, current;
      }
      out := items[head];
      assert out == View()[0];
      head := At(head, 1, items.Length);
      size := size - 1;
      assert View() == old(View())[1..];
      ok := true;
    }

    method Peek(current: T) returns (ok: bool, out: T)
      requires Valid()
      ensures ok == (|View()| > 0) && out == if ok then View()[0] else current
    {
      if size == 0 {
        return false, current;
      }
      assert items[head] == View()[0];
      return true, items[head];
    }

    method Clear()
      requires Valid()
      modifies this
      ensures Valid() && View() == [] && overflow == old(overflow)
    {
      head := 0;
      size := 0;
    }
  }
}
