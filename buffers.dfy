/**
 * The element loops that the Vector versions of hw3.cpp and hw2/ share:
 * allocate `new T[n]` and fill it with one value, or copy a prefix of an
 * old buffer into a new one.
 */
module Buffers {

  /** `new T[n]` followed by `for (i = 0; i < n; i++) a[i] = value;` */
  method NewFilled<T(0)>(n: nat, value: T) returns (a: array<T>)
    ensures fresh(a) && a.Length == n
    ensures forall k :: 0 <= k < n ==> a[k] == value
  {
    a := new T[n];
    var i := 0;
    while i < n
      invariant 0 <= i <= n
      invariant forall k :: 0 <= k < i ==> a[k] == value
    {
      a[i] := value;
      i := i + 1;
    }
  }

  /** `new T[len]` followed by `for (i = 0; i < n; i++) a[i] = src[i];` (src may be null when n == 0). */
  method NewCopy<T(0)>(src: array?<T>, n: nat, len: nat) returns (a: array<T>)
    requires n <= len
    requires n > 0 ==> src != null && n <= src.Length
    ensures fresh(a) && a.Length == len
    ensures n > 0 ==> a[..n] == src[..n]
  {
    a := new T[len];
    var i := 0;
    while i < n
      invariant 0 <= i <= n
      invariant n > 0 ==> a[..i] == src[..i]
    {
      a[i] := src[i];
      i := i + 1;
    }
  }
}
