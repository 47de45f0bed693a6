/**
 * The first version of the power-of-two vector (hw2/main1.cpp): the filled
 * constructor always calls next_pow2(size), whose assumption there admits
 * size 0. next_pow2(0) shifts 1 by the full width of int (see
 * Pow2.NonPositiveShiftsByWidth), so the constructors are modelled for
 * size >= 1 only.
 */
module VectorV1 {
  import opened Pow2
  import opened Buffers

  class Vector {
    var data: array?<int>
    var capacity: int
    var size: int

    /**
     * size <= capacity; capacity is 0 or a power of two no larger than 2^30;
     * storage is present exactly when capacity is, and has capacity slots;
     * a negative size (Vector(size, value) keeps it) only comes with no capacity.
     */
    ghost predicate Valid()
      reads this
    {
      size <= capacity <= MaxArg
      && (capacity == 0 || IsPow2(capacity))
      && (data == null <==> capacity == 0)
      && (data != null ==> data.Length == capacity)
      && (size < 0 ==> capacity == 0)
    }

    /** The live elements m_data[0 .. size). */
    ghost function Elements(): (s: seq<int>)
      reads this, data
      requires Valid()
      ensures |s| == if size > 0 then size else 0
    {
      if size <= 0 then [] else data[..size]
    }

    /** All capacity slots, live or not: what the copy constructor copies and the fill loop writes. */
    ghost function Slots(): (s: seq<int>)
      reads this, data
      requires Valid()
      ensures |s| == capacity
    {
      if data == null then [] else data[..]
    }

    /** Vector(): no storage, capacity and size 0. */
    constructor ()
      ensures Valid() && data == null && capacity == 0 && size == 0
    {
      data := null;
      capacity := 0;
      size := 0;
    }

    /** Vector(int size, const T& value): next_pow2(size) slots that all hold value, with no guard on size. */
    constructor Filled(size: int, value: int)
      requires 1 <= size <= MaxArg
      ensures Valid() && this.size == size && fresh(data)
      ensures capacity == NextPow2(size) && size <= capacity
      ensures Slots() == seq(capacity, _ => value)
    {
      this.size := size;
      var c := NextPow2(size);
      var d := NewFilled(c, value);
      capacity := c;
      data := d;
    }

    /** Vector(int size): delegates to Vector(size, T{}), and int{} is 0. */
    constructor Sized(size: int)
      requires 1 <= size <= MaxArg
      ensures Valid() && this.size == size && fresh(data)
      ensures capacity == NextPow2(size) && size <= capacity
      ensures Slots() == seq(capacity, _ => 0)
    {
      this.size := size;
      var c := NextPow2(size);
      var d := NewFilled(c, 0);
      capacity := c;
      data := d;
    }
  }

  /** The driver: a default vector, b(10) and c(10, 3) (a double 3.14 in the source). */
  method Driver() returns (a: Vector, b: Vector, c: Vector)
    ensures a.Valid() && a.data == null && a.capacity == 0 && a.size == 0
    ensures b.Valid() && b.size == 10 && b.capacity == 16 && b.Slots() == seq(16, _ => 0)
    ensures c.Valid() && c.size == 10 && c.capacity == 16 && c.Slots() == seq(16, _ => 3)
  {
    assert Pow2.Pow2(4) == 16;
    NextPow2IsLeast(10, 4);
    a := new Vector();
    b := new Vector.Sized(10);
    c := new Vector.Filled(10, 3);
  }
}
