/** The exclusive control-activity slot: at most one exclusive activity at any moment. */
module Slot {

  datatype Activity = Idle | Motion | ManualSession | Service | Update

  class ExclusiveSlot {
    var current: Activity

    constructor ()
      ensures current == Idle
    {
      current := Idle;
    }

    method TryClaim(a: Activity) returns (ok: bool)
      modifies this
      ensures ok <==> a != Idle && old(current) == Idle
      ensures current == if ok then a else old(current)
    {
      if a == Idle {
        return false;
      }
      if current != Idle {
        return false;
      }
      current := a;
      return true;
    }

    /** Only the activity that holds the slot can free it; any other release leaves it alone. */
    method Release(a: Activity)
      modifies this
      ensures current == if old(current) == a then Idle else old(current)
    {
      if current == a {
        current := Idle;
      }
    }
  }
}
