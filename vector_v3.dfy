/**
 * The copy-and-swap version of the power-of-two vector (hw2/main3.cpp):
 * the constructors, copy and move construction, swap and assignment, with
 * no push_back or pop_back yet.
 */
module VectorV3 {
  import opened Pow2
  import opened Buffers

  class Vector {
    var data: array?<int>
    var capacity: int
    var size: int

    /**
     * size <= capacity; capacity is 0 or a power of two no larger than 2^30;
     * storage is present exactly when capacity is, and has capacity slots;
     * a negative size (Vector(size, value) keeps it) only comes with no capacity.
     */
    ghost predicate Valid()
      reads this
    {
      size <= capacity <= MaxArg
      && (capacity == 0 || IsPow2(capacity))
      && (data == null <==> capacity == 0)
      && (data != null ==> data.Length == capacity)
      && (size < 0 ==> capacity == 0)
    }

    /** The live elements m_data[0 .. size). */
    ghost function Elements(): (s: seq<int>)
      reads this, data
      requires Valid()
      ensures |s| == if size > 0 then size else 0
    {
      if size <= 0 then [] else data[..size]
    }

    /** All capacity slots, live or not: what the copy constructor copies and the fill loop writes. */
    ghost function Slots(): (s: seq<int>)
      reads this, data
      requires Valid()
      ensures |s| == capacity
    {
      if data == null then [] else data[..]
    }

    /** Vector(): no storage, capacity and size 0. */
    constructor ()
      ensures Valid() && data == null && capacity == 0 && size == 0
    {
      data := null;
      capacity := 0;
      size := 0;
    }

    /** Vector(int size, const T& value): for size > 0, next_pow2(size) slots that all hold value. */
    constructor Filled(size: int, value: int)
      requires size <= MaxArg
      ensures Valid() && this.size == size
      ensures size > 0 ==> capacity == NextPow2(size) && fresh(data) && Slots() == seq(capacity, _ => value)
      ensures size <= 0 ==> capacity == 0 && data == null
    {
      this.size := size;
      if size > 0 {
        var c := NextPow2(size);
        var d := NewFilled(c, value);
        capacity := c;
        data := d;
      } else {
        capacity := 0;
        data := null;
      }
    }

    /** Vector(int size): delegates to Vector(size, T{}), and int{} is 0. */
    constructor Sized(size: int)
      requires size <= MaxArg
      ensures Valid() && this.size == size
      ensures size > 0 ==> capacity == NextPow2(size) && fresh(data) && Slots() == seq(capacity, _ => 0)
      ensures size <= 0 ==> capacity == 0 && data == null
    {
      this.size := size;
      if size > 0 {
        var c := NextPow2(size);
        var d := NewFilled(c, 0);
        capacity := c;
        data := d;
      } else {
        capacity := 0;
        data := null;
      }
    }

    /** Vector(const Vector&): same size and capacity, and a fresh copy of every capacity slot. */
    constructor Copy(other: Vector)
      requires other.Valid()
      ensures Valid() && size == other.size && capacity == other.capacity
      ensures Slots() == other.Slots() && Elements() == other.Elements()
      ensures capacity > 0 ==> fresh(data)
    {
      size := other.size;
      capacity := other.capacity;
      if other.capacity > 0 {
        var d := NewCopy(other.data, other.capacity, other.capacity);
        data := d;
      } else {
        data := null;
      }
    }

    /** Vector(Vector&&): start empty and swap, so the source is left empty. */
    constructor Move(other: Vector)
      modifies other
      ensures data == old(other.data) && capacity == old(other.capacity) && size == old(other.size)
      ensures other.data == null && other.capacity == 0 && other.size == 0
    {
      data := other.data;
      capacity := other.capacity;
      size := other.size;
      new;
      other.data := null;
      other.capacity := 0;
      other.size := 0;
    }

    /** swap: exchanges size, capacity and storage. */
    method Swap(other: Vector)
      modifies this, other
      ensures data == old(other.data) && capacity == old(other.capacity) && size == old(other.size)
      ensures other.data == old(data) && other.capacity == old(capacity) && other.size == old(size)
    {
      size, other.size := other.size, size;
      capacity, other.capacity := other.capacity, capacity;
      data, other.data := other.data, data;
    }

    /** operator=(Vector other): the by-value parameter is a copy of the source, swapped into *this. */
    method Assign(source: Vector) returns (self: Vector)
      requires Valid() && source.Valid()
      modifies this
      ensures self == this && Valid()
      ensures size == old(source.size) && capacity == old(source.capacity)
      ensures Slots() == old(source.Slots()) && Elements() == old(source.Elements())
      ensures source.Valid() && source.Slots() == old(source.Slots()) && source.size == old(source.size)
      ensures capacity > 0 ==> fresh(data)
    {
      var other := new Vector.Copy(source);
      Swap(other);
      self := this;
    }

  }

  /**
   * The driver: a(10); c(5, 20); a = c; e = (a = d) with d a reference to c.
   * Every copy ends with c's size 5, capacity 8 and slots.
   */
  method Driver() returns (a: Vector, c: Vector, e: Vector)
    ensures a.Valid() && c.Valid() && e.Valid()
    ensures c.size == 5 && c.capacity == 8 && c.Slots() == seq(8, _ => 20)
    ensures a.size == 5 && a.capacity == 8 && a.Slots() == c.Slots()
    ensures e.size == 5 && e.capacity == 8 && e.Slots() == c.Slots()
  {
    EightFromFive();
    a := new Vector.Sized(10);
    c := new Vector.Filled(5, 20);
    var self := a.Assign(c);
    var d := c;
    self := a.Assign(d);
    e := new Vector.Copy(self);
  }

  lemma EightFromFive()
    ensures NextPow2(5) == 8 && NextPow2(10) == 16
  {
    Pow2Of32();
    assert Pow2.Pow2(3) == 8 && Pow2.Pow2(4) == 16;
    NextPow2IsLeast(5, 3);
    NextPow2IsLeast(10, 4);
  }
}
