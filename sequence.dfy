/** The position counter: a single mutable cell holding a position in the
    unbounded index space that the ring maps onto its slots. The cache-line
    padding around the cell and the ordered, volatile and compare-and-swap
    memory accesses all become plain reads and writes of one field. */
module Positions {

  /** The sentinel a counter starts at: nothing produced or consumed yet. */
  const INITIAL_VALUE: int := -1

  class Sequence {
    var value: int

    /** A counter starting at the sentinel. */
    constructor ()
      ensures value == INITIAL_VALUE
    {
      value := INITIAL_VALUE;
    }

    /** A counter starting at the given position. */
    constructor WithInitialValue(initialValue: int)
      ensures value == initialValue
    {
      value := initialValue;
    }

    /** The current position. */
    function Get(): (v: int)
      reads this
      ensures v == value
    {
      value
    }

    /** Ordered store of a new position. */
    method Set(newValue: int)
      modifies this
      ensures value == newValue && Get() == newValue
    {
      value := newValue;
    }

    /** Fully fenced store of a new position; sequentially the same as Set. */
    method SetVolatile(newValue: int)
      modifies this
      ensures value == newValue && Get() == newValue
    {
      value := newValue;
    }

    /** Installs `newValue` exactly when the counter holds `expectedValue`;
        on failure nothing changes. */
    method CompareAndSet(expectedValue: int, newValue: int) returns (swapped: bool)
      modifies this
      ensures swapped <==> old(value) == expectedValue
      ensures value == if swapped then newValue else old(value)
    {
      swapped := value == expectedValue;
      if swapped {
        value := newValue;
      }
    }

    /** Adds one and returns the new position. */
    method IncrementAndGet() returns (r: int)
      modifies this
      ensures value == old(value) + 1
      ensures r == value
    {
      r := AddAndGet(1);
    }

    /** Adds `increment` through a read / compute / compare-and-swap retry loop
        and returns the value that was installed. With a single caller the
        first attempt always succeeds. */
    method AddAndGet(increment: int) returns (r: int)
      modifies this
      ensures value == old(value) + increment
      ensures r == value
    {
      // The body runs at least once, as the do/while of the source does.
      var currentValue: int;
      var newValue := 0;
      var swapped := false;
      while !swapped
        invariant !swapped ==> value == old(value)
        invariant swapped ==> value == old(value) + increment && newValue == value
        decreases if swapped then 0 else 1
      {
        currentValue := Get();
        newValue := currentValue + increment;
        swapped := CompareAndSet(currentValue, newValue);
      }
      r := newValue;
    }
  }
}
