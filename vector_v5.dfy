/**
 * The last version of the power-of-two vector (hw2/main5.cpp): capacity is
 * 0 or next_pow2 of the size that needed it, the storage is null exactly
 * when there is no capacity, and assignment is copy-and-swap.
 *
 * pop_back as written frees the storage when the size reaches 0 but keeps
 * m_capacity, so the vector leaves the representation every other operation
 * keeps; PopBackAsWritten models that code and PopBack the repair that also
 * resets the capacity.
 */
module VectorV5 {
  import opened Pow2
  import opened Buffers

  /** The three branches of push_back. */
  datatype PushPath = Allocate | Grow | InPlace

  /** Which branch push_back takes: first on m_capacity == 0, then on m_size == m_capacity. */
  function PathOf(capacity: int, size: int): (p: PushPath)
    ensures p == Allocate <==> capacity == 0
    ensures p == Grow <==> capacity != 0 && size == capacity
    ensures p == InPlace <==> capacity != 0 && size != capacity
  {
    if capacity == 0 then Allocate else if size == capacity then Grow else InPlace
  }

  class Vector {
    var data: array?<int>
    var capacity: int
    var size: int

    /**
     * size <= capacity; capacity is 0 or a power of two no larger than 2^30;
     * storage is present exactly when capacity is, and has capacity slots;
     * a negative size (Vector(size, value) keeps it) only comes with no capacity.
     */
    ghost predicate Valid()
      reads this
    {
      size <= capacity <= MaxArg
      && (capacity == 0 || IsPow2(capacity))
      && (data == null <==> capacity == 0)
      && (data != null ==> data.Length == capacity)
      && (size < 0 ==> capacity == 0)
    }

    /** The live elements m_data[0 .. size). */
    ghost function Elements(): (s: seq<int>)
      reads this, data
      requires Valid()
      ensures |s| == if size > 0 then size else 0
    {
      if size <= 0 then [] else data[..size]
    }

    /** All capacity slots, live or not: what the copy constructor copies and the fill loop writes. */
    ghost function Slots(): (s: seq<int>)
      reads this, data
      requires Valid()
      ensures |s| == capacity
    {
      if data == null then [] else data[..]
    }

    /** Vector(): no storage, capacity and size 0. */
    constructor ()
      ensures Valid() && data == null && capacity == 0 && size == 0
    {
      data := null;
      capacity := 0;
      size := 0;
    }

    /** Vector(int size, const T& value): for size > 0, next_pow2(size) slots that all hold value. */
    constructor Filled(size: int, value: int)
      requires size <= MaxArg
      ensures Valid() && this.size == size
      ensures size > 0 ==> capacity == NextPow2(size) && fresh(data) && Slots() == seq(capacity, _ => value)
      ensures size <= 0 ==> capacity == 0 && data == null
    {
      this.size := size;
      if size > 0 {
        var c := NextPow2(size);
        var d := NewFilled(c, value);
        capacity := c;
        data := d;
      } else {
        capacity := 0;
        data := null;
      }
    }

    /** Vector(int size): delegates to Vector(size, T{}), and int{} is 0. */
    constructor Sized(size: int)
      requires size <= MaxArg
      ensures Valid() && this.size == size
      ensures size > 0 ==> capacity == NextPow2(size) && fresh(data) && Slots() == seq(capacity, _ => 0)
      ensures size <= 0 ==> capacity == 0 && data == null
    {
      this.size := size;
      if size > 0 {
        var c := NextPow2(size);
        var d := NewFilled(c, 0);
        capacity := c;
        data := d;
      } else {
        capacity := 0;
        data := null;
      }
    }

    /** Vector(const Vector&): same size and capacity, and a fresh copy of every capacity slot. */
    constructor Copy(other: Vector)
      requires other.Valid()
      ensures Valid() && size == other.size && capacity == other.capacity
      ensures Slots() == other.Slots() && Elements() == other.Elements()
      ensures capacity > 0 ==> fresh(data)
    {
      size := other.size;
      capacity := other.capacity;
      if other.capacity > 0 {
        var d := NewCopy(other.data, other.capacity, other.capacity);
        data := d;
      } else {
        data := null;
      }
    }

    /** Vector(Vector&&): start empty and swap, so the source is left empty. */
    constructor Move(other: Vector)
      modifies other
      ensures data == old(other.data) && capacity == old(other.capacity) && size == old(other.size)
      ensures other.data == null && other.capacity == 0 && other.size == 0
    {
      data := other.data;
      capacity := other.capacity;
      size := other.size;
      new;
      other.data := null;
      other.capacity := 0;
      other.size := 0;
    }

    /** swap: exchanges size, capacity and storage. */
    method Swap(other: Vector)
      modifies this, other
      ensures data == old(other.data) && capacity == old(other.capacity) && size == old(other.size)
      ensures other.data == old(data) && other.capacity == old(capacity) && other.size == old(size)
    {
      size, other.size := other.size, size;
      capacity, other.capacity := other.capacity, capacity;
      data, other.data := other.data, data;
    }

    /** operator=(Vector other): the by-value parameter is a copy of the source, swapped into *this. */
    method Assign(source: Vector) returns (self: Vector)
      requires Valid() && source.Valid()
      modifies this
      ensures self == this && Valid()
      ensures size == old(source.size) && capacity == old(source.capacity)
      ensures Slots() == old(source.Slots()) && Elements() == old(source.Elements())
      ensures source.Valid() && source.Slots() == old(source.Slots()) && source.size == old(source.size)
      ensures capacity > 0 ==> fresh(data)
    {
      var other := new Vector.Copy(source);
      Swap(other);
      self := this;
    }

    /** Reading operator[]: any slot of the storage. */
    method Get(index: int) returns (e: int)
      requires Valid() && 0 <= index < capacity
      ensures e == Slots()[index]
      ensures index < size ==> e == Elements()[index]
    {
      e := data[index];
    }

    /** Writing through operator[]: only slot index changes. */
    method Set(index: int, e: int)
      requires Valid() && 0 <= index < capacity
      modifies data
      ensures Valid() && Slots() == old(Slots())[index := e]
    {
      data[index] := e;
    }

    function Size(): (n: int)
      reads this
      ensures n == size
    {
      size
    }

    /**
     * push_back: a one-slot buffer from no capacity, a buffer of next_pow2(size + 1)
     * when full, otherwise in place. size + 1 must stay within next_pow2's range.
     */
    method PushBack(e: int)
      requires Valid() && size < MaxArg
      modifies this, data
      ensures Valid()
      ensures old(size) >= 0 ==> size == old(size) + 1 && Elements() == old(Elements()) + [e]
      ensures old(capacity) == 0 ==> size == 1 && capacity == 1 && Elements() == [e] && fresh(data)
      ensures PathOf(old(capacity), old(size)) == Grow ==> capacity == NextPow2(old(size) + 1) && fresh(data)
      ensures PathOf(old(capacity), old(size)) == InPlace ==> capacity == old(capacity) && data == old(data)
    {
      if capacity == 0 {
        size, capacity := 1, 1;
        var d := new int[1];
        d[0] := e;
        data := d;
        assert Pow2.Pow2(0) == 1;
      } else if size == capacity {
        var newSize := size + 1;
        var newCapacity := NextPow2(newSize);
        var d := NewCopy(data, size, newCapacity);
        d[size] := e;
        data := d;
        capacity := newCapacity;
        size := newSize;
      } else {
        data[size] := e;
        size := size + 1;
      }
    }

    /** pop_back as written: at size 0 the storage is freed and nulled, but m_capacity is kept. */
    method PopBackAsWritten()
      modifies this
      ensures old(size) == 0 ==> data == old(data) && capacity == old(capacity) && size == 0
      ensures old(size) != 0 ==> size == old(size) - 1 && capacity == old(capacity)
      ensures old(size) != 0 && size == 0 ==> data == null
      ensures size != 0 ==> data == old(data)
    {
      if size == 0 {
        return;
      }
      size := size - 1;
      if size == 0 {
        data := null;
      }
    }

    /** pop_back with the capacity reset beside the storage, which keeps Valid. */
    method PopBack()
      requires Valid()
      modifies this
      ensures Valid()
      ensures old(size) == 0 ==> data == old(data) && capacity == old(capacity) && size == 0
      ensures old(size) != 0 ==> size == old(size) - 1
      ensures old(size) > 0 ==> Elements() == old(Elements())[..size]
      ensures size != 0 ==> data == old(data) && capacity == old(capacity)
      ensures old(size) != 0 && size == 0 ==> data == null && capacity == 0
    {
      if size == 0 {
        return;
      }
      size := size - 1;
      if size == 0 {
        data := null;
        capacity := 0;
      }
    }
  }

  /**
   * One push_back and one pop_back as written leave a vector with null
   * storage and capacity 1, on which the next push_back takes the in-place
   * branch and writes through the null pointer.
   */
  method PopThenPushAsWritten() returns (storageIsNull: bool, capacity: int, next: PushPath)
    ensures storageIsNull && capacity == 1 && next == InPlace
  {
    var v := new Vector();
    v.PushBack(7);
    v.PopBackAsWritten();
    storageIsNull := v.data == null;
    capacity := v.capacity;
    next := PathOf(v.capacity, v.size);
  }

  /** With the repaired pop_back the same sequence leaves a vector whose next push_back allocates. */
  method PopThenPush() returns (storageIsNull: bool, capacity: int, next: PushPath)
    ensures storageIsNull && capacity == 0 && next == Allocate
  {
    var v := new Vector();
    v.PushBack(7);
    v.PopBack();
    storageIsNull := v.data == null;
    capacity := v.capacity;
    next := PathOf(v.capacity, v.size);
  }

  /** [1, 1, 2, 2, ..., n, n] */
  ghost function Pairs(n: nat): seq<int> {
    if n == 0 then [] else Pairs(n - 1) + [n, n]
  }

  /** One round of the driver's first loop: `a.push_back(i); b.push_back(i); b.push_back(i);` */
  method PushRound(a: Vector, b: Vector, i: int)
    requires a != b && a.Valid() && b.Valid() && 0 <= a.size < 10 && 0 <= b.size < 10
    requires a.data == null || a.data != b.data
    modifies a, a.data, b, b.data
    ensures a.Valid() && b.Valid()
    ensures a.size == old(a.size) + 1 && b.size == old(b.size) + 2
    ensures b.Elements() == old(b.Elements()) + [i, i]
    ensures a.data == null || a.data == old(a.data) || fresh(a.data)
    ensures b.data == null || b.data == old(b.data) || fresh(b.data)
    ensures a.data == null || a.data != b.data
  {
    a.PushBack(i);
    PushTwice(b, i);
  }

  /** `b.push_back(i); b.push_back(i);` */
  method PushTwice(b: Vector, i: int)
    requires b.Valid() && 0 <= b.size < 10
    modifies b, b.data
    ensures b.Valid() && b.size == old(b.size) + 2
    ensures b.Elements() == old(b.Elements()) + [i, i]
    ensures b.data == old(b.data) || fresh(b.data)
  {
    b.PushBack(i);
    b.PushBack(i);
  }

  /** `for (i = 1; i <= 5; i++) { a.push_back(i); b.push_back(i); b.push_back(i); }` */
  method BuildPair() returns (a: Vector, b: Vector)
    ensures fresh(a) && fresh(b) && a != b && a.Valid() && b.Valid()
    ensures a.data == null || fresh(a.data)
    ensures b.data == null || fresh(b.data)
    ensures a.data == null || a.data != b.data
    ensures b.Elements() == [1, 1, 2, 2, 3, 3, 4, 4, 5, 5]
  {
    a := new Vector();
    b := new Vector();
    var i := 1;
    while i <= 5
      invariant 1 <= i <= 6 && a.Valid() && b.Valid() && a.size == i - 1
      invariant a.data == null || fresh(a.data)
      invariant b.data == null || fresh(b.data)
      invariant a.data == null || a.data != b.data
      invariant b.size == 2 * (i - 1)
      invariant b.Elements() == Pairs(i - 1)
    {
      PushRound(a, b, i);
      i := i + 1;
    }
    assert Pairs(5) == [1, 1, 2, 2, 3, 3, 4, 4, 5, 5];
  }

  /** `for (i = 1; i <= 5; i++) a.push_back(i);` */
  method PushOneToFive(a: Vector)
    requires a.Valid() && 0 <= a.size <= 10
    modifies a, a.data
    ensures a.Valid() && a.Elements() == old(a.Elements()) + [1, 2, 3, 4, 5]
  {
    ghost var prefix := a.Elements();
    var i := 1;
    while i <= 5
      invariant 1 <= i <= 6 && a.Valid() && a.size == |prefix| + i - 1
      invariant a.data == null || a.data == old(a.data) || fresh(a.data)
      invariant a.Elements() == prefix + seq(i - 1, k => k + 1)
    {
      a.PushBack(i);
      assert seq(i, k => k + 1) == seq(i - 1, k => k + 1) + [i];
      i := i + 1;
    }
    assert seq(5, k => k + 1) == [1, 2, 3, 4, 5];
  }

  /** `for (i = 0; i < a.size(); i++) std::cout << a[i]`: the elements in index order. */
  method ReadAll(a: Vector) returns (contents: seq<int>)
    requires a.Valid()
    ensures contents == a.Elements()
  {
    contents := [];
    var j := 0;
    while j < a.Size()
      invariant 0 <= j && (a.size > 0 ==> j <= a.size) && (a.size <= 0 ==> j == 0)
      invariant contents == a.Elements()[..j]
    {
      var e := a.Get(j);
      contents := contents + [e];
      j := j + 1;
    }
  }

  /** The driver: a = b, then five more pushes on a. */
  method Driver() returns (contents: seq<int>)
    ensures contents == [1, 1, 2, 2, 3, 3, 4, 4, 5, 5, 1, 2, 3, 4, 5]
  {
    var a, b := BuildPair();
    var self := a.Assign(b);
    PushOneToFive(a);
    contents := ReadAll(a);
  }
}
