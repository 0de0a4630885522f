// The growable array of values used as a chunk's constant pool (src/value.c).
module ValueArrays {
  import opened Values
  import opened Memory

  /** ValueArray: `values` holds `capacity` slots, the first `count` of
      which are in use. A NULL buffer is an array of length zero. */
  class ValueArray {
    var capacity: nat
    var count: nat
    var values: array<Value>

    ghost predicate Valid()
      reads this
    {
      values.Length == capacity && count <= capacity
    }

    /** The values written so far, in order. */
    ghost function Contents(): seq<Value>
      reads this, values
      requires Valid()
    {
      values[..count]
    }

    /** init_value_array */
    constructor Init()
      ensures Valid() && fresh(values)
      ensures capacity == 0 && count == 0 && Contents() == []
    {
      capacity := 0;
      count := 0;
      values := new Value[0];
    }

    /** free_value_array: release the buffer and start over empty. */
    method Free()
      requires Valid()
      modifies this
      ensures Valid() && fresh(values)
      ensures capacity == 0 && count == 0 && Contents() == []
    {
      capacity := 0;
      count := 0;
      values := new Value[0];
    }

    /** write_value_array: append `value`, growing first when full. */
    method Write(value: Value)
      requires Valid()
      modifies this, values
      ensures Valid()
      ensures values == old(values) || fresh(values)
      ensures count == old(count) + 1
      ensures Contents() == old(Contents()) + [value]
      ensures capacity == if old(count) < old(capacity) then old(capacity) else GrowCapacity(old(capacity))
    {
      if capacity < count + 1 {
        Grow();
      }
      values[count] := value;
      count := count + 1;
    }

    /** grow_value_array: reallocate to GROW_CAPACITY slots, keeping every
        slot of the old buffer. The slots past the old capacity hold
        whatever realloc left there; the model fills them with nil. */
    method Grow()
      requires Valid()
      modifies this
      ensures Valid() && fresh(values)
      ensures capacity == GrowCapacity(old(capacity)) && count == old(count)
      ensures values[..old(capacity)] == old(values[..])
    {
      var oldValues := values;
      capacity := GrowCapacity(capacity);
      values := new Value[capacity](i reads oldValues => if 0 <= i < oldValues.Length then oldValues[i] else NilVal);
    }
  }
}
