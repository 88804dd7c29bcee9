/** Placeholder ids for notes that are not yet committed. */
module Placeholders {

  /** The `nextId` closure of the Pinboard and legacy XML imports: its captured `n` starts at
      0 and every call decrements it first and returns the new value, so the calls yield
      -1, -2, -3, ... */
  class Counter {
    var n: int
    ghost var calls: nat

    ghost predicate Valid()
      reads this
    {
      n + calls == 0
    }

    constructor ()
      ensures Valid() && calls == 0
    {
      n := 0;
      calls := 0;
    }

    method Next() returns (id: int)
      requires Valid()
      modifies this
      ensures Valid() && calls == old(calls) + 1
      ensures id + calls == 0 && id == old(n) - 1
    {
      n := n - 1;
      calls := calls + 1;
      id := n;
    }
  }
}
