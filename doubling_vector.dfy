/**
 * The growable array of hw3.cpp: a heap buffer m_data of m_capacity slots
 * of which the first m_size hold elements, grown to max(2 * capacity, size)
 * when full, with copying construction and assignment and the index-based
 * safe_skip_iterator that visits every other element.
 */
module DoublingVector {
  import opened Buffers

  /** The elements at indices 0, 2, 4, ... of s, in order. */
  function EveryOther<T>(s: seq<T>): (r: seq<T>)
    ensures |r| == (|s| + 1) / 2
    ensures forall i :: 0 <= i < |r| ==> r[i] == s[2 * i]
  {
    seq((|s| + 1) / 2, i requires 0 <= i < (|s| + 1) / 2 => s[2 * i])
  }

  /** One safe-skip step: an even index below the end index is in range and adds s[c] to the visited prefix. */
  lemma SkipStep<T>(s: seq<T>, c: int)
    requires 0 <= c < |s| + |s| % 2 && c % 2 == 0
    ensures c < |s| && (c + 2) / 2 <= (|s| + 1) / 2
    ensures EveryOther(s)[..(c + 2) / 2] == EveryOther(s)[..c / 2] + [s[c]]
  {
    assert (c + 2) / 2 == c / 2 + 1;
  }

  /** The capacity push_back allocates when the buffer is full: twice the old one, or the new size if that is more. */
  function GrownCapacity(capacity: int, newSize: int): (c: int)
    ensures c >= 2 * capacity && c >= newSize
    ensures c == 2 * capacity || c == newSize
  {
    if 2 * capacity < newSize then newSize else 2 * capacity
  }

  class Vector<T(0)> {
    var data: array?<T>
    var capacity: int
    var size: int

    /** size <= capacity, and m_data (null only with no capacity) has exactly capacity slots. */
    predicate Valid()
      reads this
    {
      0 <= size <= capacity
      && (data == null ==> capacity == 0)
      && (data != null ==> data.Length == capacity)
    }

    /** The live elements m_data[0 .. size). */
    function Elements(): (s: seq<T>)
      reads this, data
      requires Valid()
      ensures |s| == size
    {
      if data == null then [] else data[..size]
    }

    /** Vector(): no storage. */
    constructor ()
      ensures Valid() && data == null && capacity == 0 && size == 0
      ensures Elements() == []
    {
      data := null;
      capacity := 0;
      size := 0;
    }

    /** Vector(int size): size default-initialised slots; new T[size] needs size >= 0. */
    constructor Sized(size: int)
      requires size >= 0
      ensures Valid() && fresh(data) && capacity == size && this.size == size
    {
      data := new T[size];
      capacity := size;
      this.size := size;
    }

    /** Vector(int size, const T& value): size copies of value. */
    constructor Filled(size: int, value: T)
      requires size >= 0
      ensures Valid() && fresh(data) && capacity == size && this.size == size
      ensures Elements() == seq(size, _ => value)
    {
      var d := NewFilled(size, value);
      data := d;
      capacity := size;
      this.size := size;
    }

    /** Vector(const Vector&): a buffer of exactly other.size slots, or no storage when other is empty. */
    constructor Copy(other: Vector<T>)
      requires other.Valid()
      ensures Valid() && Elements() == other.Elements() && capacity == size
      ensures other.size > 0 ==> fresh(data)
      ensures other.size == 0 ==> data == null
    {
      if other.size > 0 {
        var d := NewCopy(other.data, other.size, other.size);
        data := d;
        size := other.size;
        capacity := other.size;
      } else {
        data := null;
        capacity := 0;
        size := 0;
      }
    }

    /** operator=: the same copy as the copy constructor, returning *this. */
    method Assign(other: Vector<T>) returns (self: Vector<T>)
      requires other != this && Valid() && other.Valid()
      modifies this
      ensures self == this && Valid() && capacity == size
      ensures Elements() == other.Elements() && other.Elements() == old(other.Elements())
      ensures other.size > 0 ==> fresh(data)
      ensures other.size == 0 ==> data == null
    {
      if other.size > 0 {
        var d := NewCopy(other.data, other.size, other.size);
        data := d;
        size := other.size;
        capacity := other.size;
      } else {
        data := null;
        capacity := 0;
        size := 0;
      }
      self := this;
    }

    /** const operator[]: element index. */
    method Get(index: int) returns (e: T)
      requires Valid() && 0 <= index < size
      ensures e == Elements()[index]
    {
      e := data[index];
    }

    /** Writing through the reference that operator[] returns: only slot index changes. */
    method Set(index: int, e: T)
      requires Valid() && 0 <= index < size
      modifies data
      ensures Valid() && Elements() == old(Elements())[index := e]
    {
      data[index] := e;
    }

    function Size(): (n: int)
      reads this
      requires Valid()
      ensures n == |Elements()|
    {
      size
    }

    /** push_back: in place when there is spare room, otherwise into a fresh buffer of GrownCapacity slots. */
    method PushBack(e: T)
      requires Valid()
      modifies this, data
      ensures Valid() && Elements() == old(Elements()) + [e]
      ensures old(capacity) > old(size) ==> capacity == old(capacity) && data == old(data)
      ensures old(capacity) <= old(size) ==> capacity == GrownCapacity(old(capacity), old(size) + 1) && fresh(data)
    {
      if capacity > size {
        data[size] := e;
        size := size + 1;
      } else {
        size := size + 1;
        var newCapacity := GrownCapacity(capacity, size);
        var d := NewCopy(data, size - 1, newCapacity);
        d[size - 1] := e;
        capacity := newCapacity;
        data := d;
      }
    }

    /** pop_back: forget the last element, if any; storage and capacity stay. */
    method PopBack()
      requires Valid()
      modifies this
      ensures Valid() && data == old(data) && capacity == old(capacity)
      ensures old(size) == 0 ==> size == 0
      ensures old(size) > 0 ==> size == old(size) - 1 && Elements() == old(Elements())[..size]
    {
      if size > 0 {
        size := size - 1;
      }
    }

    /** ssbegin: an iterator at index 0. */
    method SsBegin() returns (it: SafeSkipIterator<T>)
      ensures fresh(it) && it.target == this && it.count == 0
    {
      it := new SafeSkipIterator(this, 0);
    }

    /** ssend: an iterator at size rounded up to even, so that stepping by 2 from 0 meets it. */
    method SsEnd() returns (it: SafeSkipIterator<T>)
      requires Valid()
      ensures fresh(it) && it.target == this && it.count == size + size % 2
      ensures it.count % 2 == 0 && size <= it.count <= size + 1
    {
      it := new SafeSkipIterator(this, size + size % 2);
    }
  }

  /** safe_skip_iterator: a vector and an index into it, so resizing the vector never invalidates it. */
  class SafeSkipIterator<T(0)> {
    const target: Vector<T>
    var count: int

    constructor (target: Vector<T>, count: int)
      ensures this.target == target && this.count == count
    {
      this.target := target;
      this.count := count;
    }

    /** operator==: only the indices are compared. */
    predicate Equals(other: SafeSkipIterator<T>)
      reads this, other
    {
      count == other.count
    }

    /** operator++: two steps forward, returning *this. */
    method Next() returns (self: SafeSkipIterator<T>)
      modifies this
      ensures self == this && count == old(count) + 2
    {
      count := count + 2;
      self := this;
    }

    /** operator*: the element of the target at the current index. */
    method Get() returns (e: T)
      requires target.Valid() && 0 <= count < target.size
      ensures e == target.Elements()[count]
    {
      e := target.Get(count);
    }
  }

  /** `for (itor = v.ssbegin(); itor != v.ssend(); ++itor)`: collects the elements at the even indices. */
  method SkipTraverse<T(0)>(v: Vector<T>) returns (visited: seq<T>)
    requires v.Valid()
    ensures visited == EveryOther(v.Elements())
  {
    visited := [];
    var it := v.SsBegin();
    var end := v.SsEnd();
    while !it.Equals(end)
      invariant fresh(it) && fresh(end) && it != end && it.target == v
      invariant end.count == v.size + v.size % 2
      invariant 0 <= it.count <= end.count && it.count % 2 == 0
      invariant visited == EveryOther(v.Elements())[..it.count / 2]
      decreases end.count - it.count
    {
      SkipStep(v.Elements(), it.count);
      var e := it.Get();
      visited := visited + [e];
      it := it.Next();
    }
  }

  /**
   * The driver's second safe-skip loop: every step pushes the filler and pops
   * it again before dereferencing; the index-based iterator still visits the
   * even indices of the untouched vector.
   */
  method SkipWhileRefilling<T(0)>(v: Vector<T>, filler: seq<T>) returns (visited: seq<T>)
    requires v.Valid()
    modifies v, v.data
    ensures v.Valid() && v.Elements() == old(v.Elements())
    ensures visited == EveryOther(old(v.Elements()))
  {
    ghost var elems := v.Elements();
    visited := [];
    var it := v.SsBegin();
    var end := v.SsEnd();
    while !it.Equals(end)
      invariant v.Valid() && v.Elements() == elems
      invariant fresh(it) && fresh(end) && it != end && it.target == v
      invariant end.count == |elems| + |elems| % 2
      invariant 0 <= it.count <= end.count && it.count % 2 == 0
      invariant visited == EveryOther(elems)[..it.count / 2]
      invariant v.data == null || v.data == old(v.data) || fresh(v.data)
      decreases end.count - it.count
    {
      SkipStep(elems, it.count);
      Refill(v, filler);
      var e := it.Get();
      visited := visited + [e];
      it := it.Next();
      end := v.SsEnd();
    }
  }

  /** `for (i = 0; i < 5; ++i) b.push_back(..); for (i = 0; i < 5; ++i) b.pop_back();` */
  method Refill<T(0)>(v: Vector<T>, filler: seq<T>)
    requires v.Valid()
    modifies v, v.data
    ensures v.Valid() && v.Elements() == old(v.Elements())
    ensures v.data == null || v.data == old(v.data) || fresh(v.data)
  {
    ghost var elems := v.Elements();
    var i := 0;
    while i < |filler|
      invariant 0 <= i <= |filler|
      invariant v.Valid() && v.Elements() == elems + filler[..i]
      invariant v.data == null || v.data == old(v.data) || fresh(v.data)
    {
      v.PushBack(filler[i]);
      assert filler[..i + 1] == filler[..i] + [filler[i]];
      i := i + 1;
    }
    var j := 0;
    while j < |filler|
      invariant 0 <= j <= |filler|
      invariant v.Valid() && v.size == |elems| + |filler| - j
      invariant v.Elements() == (elems + filler)[..v.size]
      invariant v.data == null || v.data == old(v.data) || fresh(v.data)
    {
      v.PopBack();
      j := j + 1;
    }
    assert (elems + filler)[..|elems|] == elems;
  }

  /** The driver's first safe-skip loop: every step assigns an equal copy back to the vector being iterated. */
  method SkipWhileReassigning<T(0)>(v: Vector<T>, copy: Vector<T>) returns (visited: seq<T>)
    requires v != copy && v.Valid() && copy.Valid() && v.Elements() == copy.Elements()
    modifies v
    ensures v.Valid() && v.Elements() == old(v.Elements())
    ensures visited == EveryOther(old(v.Elements()))
  {
    ghost var elems := v.Elements();
    visited := [];
    var it := v.SsBegin();
    var end := v.SsEnd();
    while !it.Equals(end)
      invariant v.Valid() && copy.Valid() && v.Elements() == elems && copy.Elements() == elems
      invariant fresh(it) && fresh(end) && it != end && it.target == v
      invariant end.count == |elems| + |elems| % 2
      invariant 0 <= it.count <= end.count && it.count % 2 == 0
      invariant visited == EveryOther(elems)[..it.count / 2]
      decreases end.count - it.count
    {
      SkipStep(elems, it.count);
      var self := v.Assign(copy);
      var e := it.Get();
      visited := visited + [e];
      it := it.Next();
      end := v.SsEnd();
    }
  }

  /** std::to_string of a single digit. */
  function DigitText(d: int): (s: string)
    requires 0 <= d <= 9
    ensures |s| == 1 && s[0] == "0123456789"[d]
  {
    ["0123456789"[d]]
  }

  /** `for (i = 0; i < 5; ++i) a.push_back(i + 1);` on a default-constructed vector. */
  method CountingVector() returns (a: Vector<int>)
    ensures fresh(a) && (a.data == null || fresh(a.data)) && a.Valid() && a.Elements() == [1, 2, 3, 4, 5]
  {
    a := new Vector<int>();
    var i := 0;
    while i < 5
      invariant 0 <= i <= 5 && a.Valid() && fresh(a) && (a.data == null || fresh(a.data))
      invariant a.Elements() == seq(i, k => k + 1)
    {
      a.PushBack(i + 1);
      i := i + 1;
    }
  }

  /** `for (i = 0; i < 6; ++i) b.push_back(std::to_string(i + 1));` on a default-constructed vector. */
  method DigitVector() returns (b: Vector<string>)
    ensures fresh(b) && (b.data == null || fresh(b.data)) && b.Valid() && b.Elements() == ["1", "2", "3", "4", "5", "6"]
  {
    b := new Vector<string>();
    var i := 0;
    while i < 6
      invariant 0 <= i <= 6 && b.Valid() && fresh(b) && (b.data == null || fresh(b.data))
      invariant b.Elements() == seq(i, k requires 0 <= k < i => DigitText(k + 1))
    {
      b.PushBack(DigitText(i + 1));
      i := i + 1;
    }
  }

  /** Both safe-skip loops of the driver, over the vectors it builds. */
  method SafeSkipDriver() returns (visitedA: seq<int>, visitedB: seq<string>)
    ensures visitedA == [1, 3, 5]
    ensures visitedB == ["1", "3", "5"]
  {
    var a := CountingVector();
    var b := DigitVector();
    var dummy1 := new Vector.Copy(a);
    visitedA := SkipWhileReassigning(a, dummy1);
    var dummy2 := new Vector.Copy(b);
    visitedB := SkipWhileRefilling(b, ["0", "1", "2", "3", "4"]);
    SkipFiveAndSix();
  }

  lemma SkipFiveAndSix()
    ensures EveryOther([1, 2, 3, 4, 5]) == [1, 3, 5]
    ensures EveryOther(["1", "2", "3", "4", "5", "6"]) == ["1", "3", "5"]
  {
  }
}
