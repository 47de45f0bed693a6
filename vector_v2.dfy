/**
 * The second version of the power-of-two vector (hw2/main2.cpp): default,
 * sized and filled constructors guarded against size <= 0, and a copy
 * constructor that copies every capacity slot into storage of its own.
 */
module VectorV2 {
  import opened Pow2
  import opened Buffers

  class Vector {
    var data: array?<int>
    var capacity: int
    var size: int

    /**
     * size <= capacity; capacity is 0 or a power of two no larger than 2^30;
     * storage is present exactly when capacity is, and has capacity slots;
     * a negative size (Vector(size, value) keeps it) only comes with no capacity.
     */
    ghost predicate Valid()
      reads this
    {
      size <= capacity <= MaxArg
      && (capacity == 0 || IsPow2(capacity))
      && (data == null <==> capacity == 0)
      && (data != null ==> data.Length == capacity)
      && (size < 0 ==> capacity == 0)
    }

    /** The live elements m_data[0 .. size). */
    ghost function Elements(): (s: seq<int>)
      reads this, data
      requires Valid()
      ensures |s| == if size > 0 then size else 0
    {
      if size <= 0 then [] else data[..size]
    }

    /** All capacity slots, live or not: what the copy constructor copies and the fill loop writes. */
    ghost function Slots(): (s: seq<int>)
      reads this, data
      requires Valid()
      ensures |s| == capacity
    {
      if data == null then [] else data[..]
    }

    /** Vector(): no storage, capacity and size 0. */
    constructor ()
      ensures Valid() && data == null && capacity == 0 && size == 0
    {
      data := null;
      capacity := 0;
      size := 0;
    }

    /** Vector(int size, const T& value): for size > 0, next_pow2(size) slots that all hold value. */
    constructor Filled(size: int, value: int)
      requires size <= MaxArg
      ensures Valid() && this.size == size
      ensures size > 0 ==> capacity == NextPow2(size) && fresh(data) && Slots() == seq(capacity, _ => value)
      ensures size <= 0 ==> capacity == 0 && data == null
    {
      this.size := size;
      if size > 0 {
        var c := NextPow2(size);
        var d := NewFilled(c, value);
        capacity := c;
        data := d;
      } else {
        capacity := 0;
        data := null;
      }
    }

    /** Vector(int size): delegates to Vector(size, T{}), and int{} is 0. */
    constructor Sized(size: int)
      requires size <= MaxArg
      ensures Valid() && this.size == size
      ensures size > 0 ==> capacity == NextPow2(size) && fresh(data) && Slots() == seq(capacity, _ => 0)
      ensures size <= 0 ==> capacity == 0 && data == null
    {
      this.size := size;
      if size > 0 {
        var c := NextPow2(size);
        var d := NewFilled(c, 0);
        capacity := c;
        data := d;
      } else {
        capacity := 0;
        data := null;
      }
    }

    /** Vector(const Vector&): same size and capacity, and a fresh copy of every capacity slot. */
    constructor Copy(other: Vector)
      requires other.Valid()
      ensures Valid() && size == other.size && capacity == other.capacity
      ensures Slots() == other.Slots() && Elements() == other.Elements()
      ensures capacity > 0 ==> fresh(data)
    {
      size := other.size;
      capacity := other.capacity;
      if other.capacity > 0 {
        var d := NewCopy(other.data, other.capacity, other.capacity);
        data := d;
      } else {
        data := null;
      }
    }

  }

  /** The driver: b is a copy of a(10); d a copy of the empty c, and f a copy of d through a reference. */
  method Driver() returns (a: Vector, b: Vector, d: Vector, f: Vector)
    ensures a.Valid() && b.Valid() && d.Valid() && f.Valid()
    ensures a.size == 10 && a.capacity == 16 && a.Slots() == seq(16, _ => 0)
    ensures b.size == 10 && b.capacity == 16 && b.Slots() == a.Slots() && b.data != a.data
    ensures d.size == 0 && d.capacity == 0 && d.data == null
    ensures f.size == 0 && f.capacity == 0 && f.data == null
  {
    SixteenFromTen();
    a := new Vector.Sized(10);
    b := new Vector.Copy(a);
    var c := new Vector();
    d := new Vector.Copy(c);
    var e := d;
    f := new Vector.Copy(e);
  }

  lemma SixteenFromTen()
    ensures NextPow2(10) == 16
  {
    assert Pow2.Pow2(4) == 16;
    NextPow2IsLeast(10, 4);
  }
}
